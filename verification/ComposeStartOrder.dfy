/**
 From compose file to driver calls: whatever the driver answers, no container is
 run before its dependencies were, and before those it needs healthy were seen
 healthy under the id their own run returned.
 */
module ComposeStartOrder {
  import opened Common
  import opened ComposeSchema
  import opened ServiceGraphs
  import opened ComposeDag
  import opened ComposeWaves
  import opened ComposePlan
  import opened ComposeExecutor

  /** Call `i` ran the service, and the driver said it worked. */
  ghost predicate RanAt(d: Driver, log: seq<Call>, service: string, i: nat) {
    i < |log| && log[i].DoRun? && log[i].service == service && d.fails(log[..i + 1]).None?
  }

  ghost predicate RanAs(d: Driver, log: seq<Call>, service: string, id: ContainerId) {
    exists i: nat :: RanAt(d, log, service, i) && d.ran(log[..i + 1]) == id
  }

  ghost predicate Started(d: Driver, log: seq<Call>, service: string) {
    exists i: nat :: RanAt(d, log, service, i)
  }

  /** Some call after the service's run inspected the very id that run returned, and found it healthy. */
  ghost predicate SeenHealthy(d: Driver, log: seq<Call>, service: string) {
    exists i: nat, j: nat :: RanAt(d, log, service, i) && InspectedAt(d, log, i, j) && HealthyAnswer(d, log[..j + 1])
  }

  ghost predicate InspectedAt(d: Driver, log: seq<Call>, i: nat, j: nat) {
    i < j < |log| && log[j] == DoInspect(d.ran(log[..i + 1]))
  }

  /** The services that may be started now: everything they depend on was started, and what must be healthy was seen so. */
  ghost predicate MayRun(f: Frame, d: Driver, before: seq<Call>, service: string) {
    exists svc :: (service, svc) in f.active
      && (forall dep :: dep in DepsOf(svc) ==> Started(d, before, dep.0))
      && (forall h :: h in HealthyDependencies(svc) ==> SeenHealthy(d, before, h))
  }

  /** Every run happens when it may and only once, and every inspection is of an id that a needed service's run returned. */
  ghost predicate InOrder(f: Frame, d: Driver, log: seq<Call>) {
    && (forall t :: 0 <= t < |log| && log[t].DoRun? ==> MayRun(f, d, log[..t], log[t].service))
    && (forall t, t' :: 0 <= t < t' < |log| && log[t].DoRun? && log[t'].DoRun? ==> log[t].service != log[t'].service)
    && (forall t: nat :: t < |log| && log[t].DoInspect? ==> OwnId(f, d, log, t))
  }

  ghost predicate OwnId(f: Frame, d: Driver, log: seq<Call>, t: nat) {
    exists s, i: nat :: NeededHealthy(f, s) && RanAt(d, log, s, i) && InspectedAt(d, log, i, t)
  }

  // ---------------------------------------------------------------------------
  // Facts about logs survive as they grow
  // ---------------------------------------------------------------------------

  lemma RanLater(d: Driver, log: seq<Call>, more: seq<Call>, service: string, i: nat)
    requires log <= more && i < |log|
    ensures RanAt(d, log, service, i) <==> RanAt(d, more, service, i)
    ensures more[..i + 1] == log[..i + 1]
  {
    assert more[..i + 1] == log[..i + 1];
  }

  lemma RanAsLater(d: Driver, log: seq<Call>, more: seq<Call>, service: string, id: ContainerId)
    requires log <= more && RanAs(d, log, service, id)
    ensures RanAs(d, more, service, id)
  {
    var i: nat :| RanAt(d, log, service, i) && d.ran(log[..i + 1]) == id;
    RanLater(d, log, more, service, i);
  }

  lemma SeenLater(d: Driver, log: seq<Call>, more: seq<Call>, service: string)
    requires log <= more && SeenHealthy(d, log, service)
    ensures SeenHealthy(d, more, service)
  {
    var i: nat, j: nat :| RanAt(d, log, service, i) && InspectedAt(d, log, i, j) && HealthyAnswer(d, log[..j + 1]);
    RanLater(d, log, more, service, i);
    assert more[..j + 1] == log[..j + 1];
    assert InspectedAt(d, more, i, j);
  }

  lemma OwnLater(f: Frame, d: Driver, log: seq<Call>, more: seq<Call>, t: nat)
    requires log <= more && t < |log| && OwnId(f, d, log, t)
    ensures OwnId(f, d, more, t)
  {
    var s, i: nat :| NeededHealthy(f, s) && RanAt(d, log, s, i) && InspectedAt(d, log, i, t);
    RanLater(d, log, more, s, i);
  }

  // ---------------------------------------------------------------------------
  // Operations and calls advance together
  // ---------------------------------------------------------------------------

  /** What the log shows once the first `k` operations have gone through. */
  ghost predicate InStep(f: Frame, d: Driver, ops: seq<Op>, log: seq<Call>, ids: map<string, ContainerId>) {
    && InOrder(f, d, log)
    && (forall s :: HasRun(ops, s) <==> s in ids)
    && (forall s :: s in ids ==> RanAs(d, log, s, ids[s]))
    && (forall t :: 0 <= t < |log| && log[t].DoRun? ==> log[t].service in ids)
    && (forall s :: HasWait(ops, s) ==> SeenHealthy(d, log, s))
  }

  /** A call that runs and inspects nothing. */
  lemma OtherCall(f: Frame, d: Driver, ops: seq<Op>, log: seq<Call>, ids: map<string, ContainerId>, call: Call)
    requires InStep(f, d, ops, log, ids) && !call.DoRun? && !call.DoInspect?
    ensures InStep(f, d, ops, log + [call], ids)
  {
    hide MayRun, OwnId, RanAs, SeenHealthy, HasRun, HasWait;
    CallAdded(f, d, log, call);
    StepCarries(d, ops, log, ids, log + [call]);
  }

  /** What is known of ids and barriers survives as the log grows. */
  lemma StepCarries(d: Driver, ops: seq<Op>, log: seq<Call>, ids: map<string, ContainerId>, more: seq<Call>)
    requires log <= more
    requires forall s :: s in ids ==> RanAs(d, log, s, ids[s])
    requires forall s :: HasWait(ops, s) ==> SeenHealthy(d, log, s)
    ensures forall s :: s in ids ==> RanAs(d, more, s, ids[s])
    ensures forall s :: HasWait(ops, s) ==> SeenHealthy(d, more, s)
  {
    hide HasWait;
    forall s | s in ids ensures RanAs(d, more, s, ids[s]) {
      RanAsLater(d, log, more, s, ids[s]);
    }
    forall s | HasWait(ops, s) ensures SeenHealthy(d, more, s) {
      SeenLater(d, log, more, s);
    }
  }

  /** Appending a call keeps the log in order if the call itself is. */
  lemma CallAdded(f: Frame, d: Driver, log: seq<Call>, call: Call)
    requires InOrder(f, d, log)
    requires call.DoRun? ==>
               && MayRun(f, d, log, call.service)
               && forall t :: 0 <= t < |log| && log[t].DoRun? ==> log[t].service != call.service
    requires call.DoInspect? ==> OwnId(f, d, log + [call], |log|)
    ensures InOrder(f, d, log + [call])
  {
    hide MayRun, OwnId;
    var more := log + [call];
    forall t | 0 <= t < |more| && more[t].DoRun? ensures MayRun(f, d, more[..t], more[t].service) {
      assert more[..t] == if t < |log| then log[..t] else log;
    }
    forall t: nat | t < |more| && more[t].DoInspect? ensures OwnId(f, d, more, t) {
      if t < |log| {
        OwnLater(f, d, log, more, t);
      }
    }
  }

  /** A run may happen where its operation is placed. */
  lemma PlacedMayRun(f: Frame, d: Driver, ops: seq<Op>, log: seq<Call>, ids: map<string, ContainerId>, op: Op)
    requires InStep(f, d, ops, log, ids) && op.RunContainer? && Placed(f, ops, op)
    ensures MayRun(f, d, log, op.service) && op.service !in ids
  {
    hide InOrder, DepsOf, HealthyDependencies, SeenHealthy, RanAt, HasRun, HasWait, ImageOp;
    var svc :| RunPlaced(f, ops, op, svc);
    forall dep | dep in DepsOf(svc) ensures Started(d, log, dep.0) {
      assert RanAs(d, log, dep.0, ids[dep.0]);
    }
  }

  lemma RunStep(f: Frame, d: Driver, ops: seq<Op>, log: seq<Call>, ids: map<string, ContainerId>, op: Op)
    requires InStep(f, d, ops, log, ids) && op.RunContainer? && Placed(f, ops, op)
    requires d.fails(log + [CallFor(op)]).None?
    ensures InStep(f, d, ops + [op], log + [CallFor(op)], ids[op.service := d.ran(log + [CallFor(op)])])
  {
    hide MayRun, OwnId, SeenHealthy, Placed, HasRun, HasWait, RanAs;
    PlacedMayRun(f, d, ops, log, ids, op);
    var more := log + [CallFor(op)];
    CallAdded(f, d, log, CallFor(op));
    Grown(ops, op);
    StepCarries(d, ops, log, ids, more);
    RanNow(d, log, CallFor(op));
  }

  lemma RanNow(d: Driver, log: seq<Call>, call: Call)
    requires call.DoRun? && d.fails(log + [call]).None?
    ensures RanAs(d, log + [call], call.service, d.ran(log + [call]))
  {
    var more := log + [call];
    assert more[..|log| + 1] == more;
    assert RanAt(d, more, call.service, |log|);
  }

  /** Inspections of a started service's own id keep everything in step. */
  lemma {:induction false} PollsStay(f: Frame, d: Driver, ops: seq<Op>, log: seq<Call>, ids: map<string, ContainerId>, s: string, n: nat)
    requires InStep(f, d, ops, log, ids) && NeededHealthy(f, s) && s in ids
    ensures InStep(f, d, ops, Polled(log, ids[s], n), ids)
  {
    hide NeededHealthy, InStep, RanAs;
    if n > 0 {
      PollsStay(f, d, ops, log, ids, s, n - 1);
      PollStays(f, d, ops, Polled(log, ids[s], n - 1), ids, s);
    }
  }

  lemma PollStays(f: Frame, d: Driver, ops: seq<Op>, log: seq<Call>, ids: map<string, ContainerId>, s: string)
    requires InStep(f, d, ops, log, ids) && NeededHealthy(f, s) && s in ids
    ensures InStep(f, d, ops, log + [DoInspect(ids[s])], ids)
  {
    hide NeededHealthy, MayRun, SeenHealthy, HasRun, HasWait, RanAs;
    var more := log + [DoInspect(ids[s])];
    Inspects(f, d, log, s, ids[s]);
    CallAdded(f, d, log, DoInspect(ids[s]));
    StepCarries(d, ops, log, ids, more);
  }

  /** An inspection of the id a needed service's run returned. */
  lemma Inspects(f: Frame, d: Driver, log: seq<Call>, s: string, id: ContainerId)
    requires NeededHealthy(f, s) && RanAs(d, log, s, id)
    ensures OwnId(f, d, log + [DoInspect(id)], |log|)
    ensures HealthyAnswer(d, log + [DoInspect(id)]) ==> SeenHealthy(d, log + [DoInspect(id)], s)
  {
    hide NeededHealthy;
    var more := log + [DoInspect(id)];
    var i: nat :| RanAt(d, log, s, i) && d.ran(log[..i + 1]) == id;
    RanLater(d, log, more, s, i);
    assert InspectedAt(d, more, i, |log|);
    assert more[..|log| + 1] == more;
  }

  lemma WaitStep(f: Frame, d: Driver, ops: seq<Op>, log: seq<Call>, ids: map<string, ContainerId>, op: Op, n: nat)
    requires InStep(f, d, ops, log, ids) && op.WaitHealthy? && Placed(f, ops, op) && n >= 1
    ensures op.service in ids && InStep(f, d, ops, Polled(log, ids[op.service], n), ids)
    ensures HealthyAnswer(d, Polled(log, ids[op.service], n)) ==> InStep(f, d, ops + [op], Polled(log, ids[op.service], n), ids)
  {
    hide InOrder, NeededHealthy, HasRun, HasWait, HealthyAnswer, RanAs, SeenHealthy;
    var s := op.service;
    assert s in ids;
    PollsStay(f, d, ops, log, ids, s, n);
    PollsStay(f, d, ops, log, ids, s, n - 1);
    Grown(ops, op);
    Inspects(f, d, Polled(log, ids[s], n - 1), s, ids[s]);
  }

  lemma OpStep(f: Frame, d: Driver, opts: ExecOpts, ops: seq<Op>, op: Op,
               log0: seq<Call>, ids0: map<string, ContainerId>, log: seq<Call>, ids: map<string, ContainerId>)
    requires InStep(f, d, ops, log0, ids0) && Placed(f, ops, op) && OpDone(d, opts, op, log0, ids0, log, ids)
    ensures InStep(f, d, ops + [op], log, ids)
  {
    hide InOrder, SeenHealthy, HasRun, HasWait;
    Grown(ops, op);
    if Skipped(opts, op) {
    } else if op.WaitHealthy? {
      var n: nat :| n >= 1 && log == Polled(log0, WaitId(ids0, op), n);
      hide Placed, InStep;
      WaitStep(f, d, ops, log0, ids0, op, n);
    } else if op.RunContainer? {
      hide Placed, InStep;
      RunStep(f, d, ops, log0, ids0, op);
    } else {
      OtherCall(f, d, ops, log0, ids0, CallFor(op));
    }
  }

  lemma {:induction false} FollowedInStep(f: Frame, d: Driver, opts: ExecOpts, ops: seq<Op>, k: nat,
                                          log: seq<Call>, ids: map<string, ContainerId>)
    requires Ordered(f, ops) && k <= |ops| && Followed(d, opts, ops, k, log, ids)
    ensures InStep(f, d, ops[..k], log, ids)
    decreases k
  {
    hide InStep, Placed, OpDone, HasRun, HasWait;
    if k == 0 {
      assert InStep(f, d, [], [], map[]) by { NothingYet(f, d); }
      assert ops[..0] == [];
    } else {
      var log0, ids0 :| Followed(d, opts, ops, k - 1, log0, ids0) && OpDone(d, opts, ops[k - 1], log0, ids0, log, ids);
      FollowedInStep(f, d, opts, ops, k - 1, log0, ids0);
      OpStep(f, d, opts, ops[..k - 1], ops[k - 1], log0, ids0, log, ids);
      assert ops[..k - 1] + [ops[k - 1]] == ops[..k];
    }
  }

  lemma NothingYet(f: Frame, d: Driver)
    ensures InStep(f, d, [], [], map[])
  {
  }

  lemma FailedInOrder(f: Frame, d: Driver, opts: ExecOpts, ops: seq<Op>, op: Op,
                      log0: seq<Call>, ids0: map<string, ContainerId>, log: seq<Call>)
    requires InStep(f, d, ops, log0, ids0) && Placed(f, ops, op) && (exists error :: OpFailed(d, opts, op, log0, ids0, log, error))
    ensures InOrder(f, d, log)
  {
    hide InOrder, SeenHealthy, HasRun, HasWait, MayRun;
    if op.WaitHealthy? {
      var n: nat :| n >= 1 && log == Polled(log0, WaitId(ids0, op), n);
      WaitStep(f, d, ops, log0, ids0, op, n);
    } else {
      if op.RunContainer? {
        PlacedMayRun(f, d, ops, log0, ids0, op);
      }
      CallAdded(f, d, log0, CallFor(op));
    }
  }

  // ---------------------------------------------------------------------------
  // Theorems
  // ---------------------------------------------------------------------------

  /**
   For every compose file `plan` accepts and every driver, failing wherever it
   likes: the calls made are in order, up to the last one.
   */
  lemma StartOrder(c: Compose, opts: PlanOptions, hash: Service -> Option<string>, p: Plan,
                   d: Driver, eopts: ExecOpts, log: seq<Call>)
    requires IsPlan(c, opts, hash, p) && Executed(d, eopts, p.ops, log)
    ensures InOrder(FrameOf(c, opts, hash), d, log)
  {
    hide InOrder, Placed, Complete, OpFailed, Followed, FrameOf, Represents, AreLayers, ReferencesOk, KnownUpTo;
    var f := FrameOf(c, opts, hash);
    if ids :| Followed(d, eopts, p.ops, |p.ops|, log, ids) {
      FollowedInStep(f, d, eopts, p.ops, |p.ops|, log, ids);
    } else {
      var k: nat, error :| StoppedAt(d, eopts, p.ops, k, log, error);
      var log0, ids0 :| Followed(d, eopts, p.ops, k, log0, ids0) && OpFailed(d, eopts, p.ops[k], log0, ids0, log, error);
      FollowedInStep(f, d, eopts, p.ops, k, log0, ids0);
      FailedInOrder(f, d, eopts, p.ops[..k], p.ops[k], log0, ids0, log);
    }
  }

  /** When execution ends without an error, every active service runs under the id reported for it. */
  lemma EverythingRuns(c: Compose, opts: PlanOptions, hash: Service -> Option<string>, p: Plan,
                       d: Driver, eopts: ExecOpts, log: seq<Call>, ids: map<string, ContainerId>)
    requires IsPlan(c, opts, hash, p) && Followed(d, eopts, p.ops, |p.ops|, log, ids)
    ensures
      var f := FrameOf(c, opts, hash);
      && (forall e :: e in f.active ==> e.0 in ids && RanAs(d, log, e.0, ids[e.0]))
      && (forall s :: NeededHealthy(f, s) ==> SeenHealthy(d, log, s))
  {
    hide InOrder, Placed, FrameOf, Represents, AreLayers, ReferencesOk, KnownUpTo, RanAs, SeenHealthy, ImageOp, NeededHealthy, Followed;
    var f := FrameOf(c, opts, hash);
    FollowedInStep(f, d, eopts, p.ops, |p.ops|, log, ids);
    assert p.ops[..|p.ops|] == p.ops;
  }
}
