/**
 Executing a plan against a driver that may answer anything, and fail at any
 call. The driver is a function of everything it has been asked before, so a
 statement about every driver is a statement about every behaviour.
 */
module ComposeExecutor {
  import opened Common
  import opened ComposeSchema
  import opened ServiceGraphs
  import opened ComposeDag
  import opened ComposePlan

  type ContainerId = string

  datatype Call =
    | DoCreateNetwork(name: string, driver: Option<string>)
    | DoCreateVolume(name: string, driver: Option<string>)
    | DoBuild(service: string, context: string, tag: string)
    | DoPull(image: string)
    | DoRun(service: string, image: string, containerName: string)
    | DoInspect(id: ContainerId)
    | DoStop(id: ContainerId)
    | DoRemove(id: ContainerId)

  datatype HealthStatus = Healthy | Starting | Unhealthy | NoStatus | UnknownStatus(text: string)

  datatype DriverError = CallFailed(text: string) | BecameUnhealthy(service: string) | HealthcheckTimeout(service: string)

  /** What the driver answers to the last call of a log, and how long the call took. */
  datatype Driver = Driver(
    fails: seq<Call> -> Option<string>,
    ran: seq<Call> -> ContainerId,
    health: seq<Call> -> Option<HealthStatus>,
    took: seq<Call> -> nat)

  datatype ExecOpts = ExecOpts(noBuild: bool, noPull: bool, startPeriod: Option<nat>)

  datatype Report = Report(containers: map<string, ContainerId>, built: nat, pulled: nat, networks: nat, volumes: nat)

  // Times in milliseconds.
  const TIMEOUT_SLACK := 5_000
  const DEFAULT_POLL_INTERVAL := 2_000
  const INTERVAL := 30_000
  const RETRIES := 3

  // ---------------------------------------------------------------------------
  // Waiting for health
  // ---------------------------------------------------------------------------

  /** The log after `n` inspections of `id`. */
  function Polled(log: seq<Call>, id: ContainerId, n: nat): seq<Call> {
    if n == 0 then log else Polled(log, id, n - 1) + [DoInspect(id)]
  }

  /** No healthcheck counts as healthy. */
  predicate HealthyAnswer(d: Driver, log: seq<Call>) {
    d.fails(log).None? && (d.health(log).None? || d.health(log).value.Healthy?)
  }

  predicate KeepPolling(d: Driver, log: seq<Call>) {
    d.fails(log).None? && d.health(log).Some? && !d.health(log).value.Healthy? && !d.health(log).value.Unhealthy?
  }

  /** How long `n` inspections of `id` take, with a pause of `poll` between them. */
  function Waited(d: Driver, log: seq<Call>, id: ContainerId, n: nat, poll: nat): nat {
    if n == 0 then 0
    else Waited(d, log, id, n - 1, poll) + (if n > 1 then poll else 0) + d.took(Polled(log, id, n)) + 1
  }

  /** The barrier inspected `n` times: every answer but the last left it waiting, and in time. */
  ghost predicate Polls(d: Driver, log: seq<Call>, id: ContainerId, n: nat, limit: nat, poll: nat) {
    n >= 1 && forall m: nat :: 1 <= m < n ==> InTime(d, log, id, m, limit, poll)
  }

  predicate InTime(d: Driver, log: seq<Call>, id: ContainerId, m: nat, limit: nat, poll: nat) {
    KeepPolling(d, Polled(log, id, m)) && Waited(d, log, id, m, poll) < limit
  }

  /** One more inspection. */
  lemma PollsOn(d: Driver, log: seq<Call>, id: ContainerId, n: nat, limit: nat, poll: nat)
    requires n == 0 || (Polls(d, log, id, n, limit, poll) && InTime(d, log, id, n, limit, poll))
    ensures Polls(d, log, id, n + 1, limit, poll)
    ensures Polled(log, id, n + 1) == Polled(log, id, n) + [DoInspect(id)]
    ensures Waited(d, log, id, n + 1, poll)
            == Waited(d, log, id, n, poll) + (if n > 0 then poll else 0) + d.took(Polled(log, id, n + 1)) + 1
  {
    hide InTime;
  }

  /** Why a barrier gives up after `n` inspections: the call failed, the container is unhealthy, or time ran out. */
  predicate GaveUp(d: Driver, log0: seq<Call>, id: ContainerId, n: nat, limit: nat, poll: nat, service: string, error: DriverError) {
    var log := Polled(log0, id, n);
    || (d.fails(log).Some? && error == CallFailed(d.fails(log).value))
    || (d.fails(log).None? && d.health(log) == Some(Unhealthy) && error == BecameUnhealthy(service))
    || (KeepPolling(d, log) && Waited(d, log0, id, n, poll) >= limit && error == HealthcheckTimeout(service))
  }

  function TimeLimit(startPeriod: nat, interval: nat, retries: nat): nat {
    startPeriod + interval * (retries + 1) + TIMEOUT_SLACK
  }

  function PollInterval(interval: nat): nat {
    if interval < DEFAULT_POLL_INTERVAL then interval else DEFAULT_POLL_INTERVAL
  }

  /**
   Poll until healthy, unhealthy, a failing call or the deadline. Every call takes
   at least one tick of the clock.
   */
  method WaitUntilHealthy(d: Driver, before: seq<Call>, id: ContainerId, service: string,
                          startPeriod: nat, interval: nat, retries: nat, now: nat)
    returns (log: seq<Call>, error: Option<DriverError>, later: nat)
    ensures exists n: nat ::
              && log == Polled(before, id, n) && later == now + Waited(d, before, id, n, PollInterval(interval))
              && Polls(d, before, id, n, TimeLimit(startPeriod, interval, retries), PollInterval(interval))
              && (error.Some? ==> GaveUp(d, before, id, n, TimeLimit(startPeriod, interval, retries), PollInterval(interval),
                                         service, error.value))
    ensures error.None? <==> HealthyAnswer(d, log)
  {
    var timeout := startPeriod + interval * (retries + 1) + TIMEOUT_SLACK;
    var poll := if interval < DEFAULT_POLL_INTERVAL then interval else DEFAULT_POLL_INTERVAL;
    assert timeout == TimeLimit(startPeriod, interval, retries) && poll == PollInterval(interval);
    hide TimeLimit, PollInterval, Polls, Polled, Waited;
    var deadline := now + timeout;
    log, later := before, now;
    ghost var n := 0;
    assert log == Polled(before, id, 0) && Waited(d, before, id, 0, poll) == 0 by { NotYet(d, before, id, poll); }
    while true
      invariant log == Polled(before, id, n)
      invariant later == now + Waited(d, before, id, n, poll) + if n > 0 then poll else 0
      invariant n == 0 || (Polls(d, before, id, n, timeout, poll) && InTime(d, before, id, n, timeout, poll))
      decreases deadline + poll - later
    {
      PollsOn(d, before, id, n, timeout, poll);
      log := log + [DoInspect(id)];
      n := n + 1;
      later := later + d.took(log) + 1;
      if d.fails(log).Some? {
        return log, Some(CallFailed(d.fails(log).value)), later;
      }
      match d.health(log) {
        case None => return log, None, later;
        case Some(Healthy) => return log, None, later;
        case Some(Unhealthy) => return log, Some(BecameUnhealthy(service)), later;
        case _ =>
      }
      if later >= deadline {
        return log, Some(HealthcheckTimeout(service)), later;
      }
      later := later + poll;
    }
  }

  lemma NotYet(d: Driver, log: seq<Call>, id: ContainerId, poll: nat)
    ensures Polled(log, id, 0) == log && Waited(d, log, id, 0, poll) == 0
  {}

  // ---------------------------------------------------------------------------
  // What executing a list of operations does
  // ---------------------------------------------------------------------------

  /** The id a barrier inspects: the one the service's run returned, else the expected name. */
  function WaitId(ids: map<string, ContainerId>, op: Op): ContainerId
    requires op.WaitHealthy?
  {
    if op.service in ids then ids[op.service] else op.containerName
  }

  predicate Skipped(opts: ExecOpts, op: Op) {
    (op.BuildImage? && opts.noBuild) || (op.PullImage? && opts.noPull)
  }

  function CallFor(op: Op): Call
    requires !op.WaitHealthy?
  {
    match op
    case CreateNetwork(name, driver) => DoCreateNetwork(name, driver)
    case CreateVolume(name, driver) => DoCreateVolume(name, driver)
    case BuildImage(service, context, tag) => DoBuild(service, context, tag)
    case PullImage(_, image) => DoPull(image)
    case RunContainer(service, image, containerName, _) => DoRun(service, image, containerName)
    case StopContainer(name) => DoStop(name)
    case RemoveContainer(name) => DoRemove(name)
  }

  function StartPeriod(opts: ExecOpts): nat {
    if opts.startPeriod.Some? then opts.startPeriod.value else 0
  }

  function BarrierLimit(opts: ExecOpts): nat {
    TimeLimit(StartPeriod(opts), INTERVAL, RETRIES)
  }

  ghost predicate BarrierPolls(d: Driver, opts: ExecOpts, log: seq<Call>, id: ContainerId, n: nat) {
    Polls(d, log, id, n, BarrierLimit(opts), PollInterval(INTERVAL))
  }

  /** The operation went through: the calls it made, and the ids known afterwards. */
  ghost predicate OpDone(d: Driver, opts: ExecOpts, op: Op, log0: seq<Call>, ids0: map<string, ContainerId>,
                         log: seq<Call>, ids: map<string, ContainerId>)
  {
    if Skipped(opts, op) then log == log0 && ids == ids0
    else if op.WaitHealthy? then
      ids == ids0 && HealthyAnswer(d, log)
      && exists n: nat :: log == Polled(log0, WaitId(ids0, op), n) && BarrierPolls(d, opts, log0, WaitId(ids0, op), n)
    else
      && log == log0 + [CallFor(op)] && d.fails(log).None?
      && ids == if op.RunContainer? then ids0[op.service := d.ran(log)] else ids0
  }

  /** The operation's last call failed, or its barrier gave up, and `error` says so. */
  ghost predicate OpFailed(d: Driver, opts: ExecOpts, op: Op, log0: seq<Call>, ids0: map<string, ContainerId>,
                           log: seq<Call>, error: DriverError)
  {
    && !Skipped(opts, op)
    && if op.WaitHealthy? then
         exists n: nat :: log == Polled(log0, WaitId(ids0, op), n) && BarrierPolls(d, opts, log0, WaitId(ids0, op), n)
                          && GaveUp(d, log0, WaitId(ids0, op), n, BarrierLimit(opts), PollInterval(INTERVAL), op.service, error)
       else log == log0 + [CallFor(op)] && d.fails(log).Some? && error == CallFailed(d.fails(log).value)
  }

  /** The first `k` operations all went through. */
  ghost predicate Followed(d: Driver, opts: ExecOpts, ops: seq<Op>, k: nat, log: seq<Call>, ids: map<string, ContainerId>)
    requires k <= |ops|
  {
    if k == 0 then log == [] && ids == map[]
    else
      var op := ops[k - 1];
      exists log0, ids0 :: OpDone(d, opts, op, log0, ids0, log, ids) && Followed(d, opts, ops, k - 1, log0, ids0)
  }

  lemma FollowedNext(d: Driver, opts: ExecOpts, ops: seq<Op>, k: nat, log0: seq<Call>, ids0: map<string, ContainerId>,
                     log: seq<Call>, ids: map<string, ContainerId>)
    requires k < |ops| && Followed(d, opts, ops, k, log0, ids0) && OpDone(d, opts, ops[k], log0, ids0, log, ids)
    ensures Followed(d, opts, ops, k + 1, log, ids)
  {
    hide OpDone;
  }

  /** What the report says of one operation that was not skipped. */
  function Counted(op: Op, r: Report): Report {
    match op
    case CreateNetwork(_, _) => r.(networks := r.networks + 1)
    case CreateVolume(_, _) => r.(volumes := r.volumes + 1)
    case BuildImage(_, _, _) => r.(built := r.built + 1)
    case PullImage(_, _) => r.(pulled := r.pulled + 1)
    case _ => r
  }

  /** The report's counts after the first `k` operations, no container listed yet. */
  function Tally(opts: ExecOpts, ops: seq<Op>, k: nat): (r: Report)
    requires k <= |ops|
    ensures r.containers == map[]
  {
    if k == 0 then Report(map[], 0, 0, 0, 0)
    else if Skipped(opts, ops[k - 1]) then Tally(opts, ops, k - 1)
    else Counted(ops[k - 1], Tally(opts, ops, k - 1))
  }

  /** The operations before the `k`th went through and the `k`th failed with `error`. */
  ghost predicate StoppedAt(d: Driver, opts: ExecOpts, ops: seq<Op>, k: nat, log: seq<Call>, error: DriverError) {
    k < |ops| && exists log0, ids0 :: Followed(d, opts, ops, k, log0, ids0) && OpFailed(d, opts, ops[k], log0, ids0, log, error)
  }

  /** The run of an execution: the plan's operations up to the last one or up to the one that failed. */
  ghost predicate Executed(d: Driver, opts: ExecOpts, ops: seq<Op>, log: seq<Call>) {
    || (exists ids :: Followed(d, opts, ops, |ops|, log, ids))
    || (exists k: nat, error :: StoppedAt(d, opts, ops, k, log, error))
  }

  method Execute(d: Driver, ops: seq<Op>, opts: ExecOpts, start: nat)
    returns (log: seq<Call>, report: Report, error: Option<DriverError>)
    ensures error.None? ==> Followed(d, opts, ops, |ops|, log, report.containers)
    ensures error.None? ==> report == Tally(opts, ops, |ops|).(containers := report.containers)
    ensures error.Some? ==> exists k: nat :: StoppedAt(d, opts, ops, k, log, error.value)
  {
    hide Polls, Waited, TimeLimit, PollInterval, KeepPolling;
    log, report, error := [], Report(map[], 0, 0, 0, 0), None;
    var ids: map<string, ContainerId> := map[];
    var now := start;
    for i := 0 to |ops|
      invariant Followed(d, opts, ops, i, log, ids) && error.None?
      invariant report == Tally(opts, ops, i).(containers := ids)
    {
      var op := ops[i];
      ghost var log0, ids0 := log, ids;
      if Skipped(opts, op) {
        FollowedNext(d, opts, ops, i, log0, ids0, log, ids);
        continue;
      }
      if op.WaitHealthy? {
        var id := WaitId(ids, op);
        var startPeriod := if opts.startPeriod.Some? then opts.startPeriod.value else 0;
        log, error, now := WaitUntilHealthy(d, log, id, op.service, startPeriod, INTERVAL, RETRIES, now);
        if error.Some? {
          assert OpFailed(d, opts, op, log0, ids0, log, error.value);
          assert StoppedAt(d, opts, ops, i, log, error.value);
          return log, report, error;
        }
        FollowedNext(d, opts, ops, i, log0, ids0, log, ids);
        continue;
      }
      log := log + [CallFor(op)];
      if d.fails(log).Some? {
        error := Some(CallFailed(d.fails(log).value));
        assert OpFailed(d, opts, op, log0, ids0, log, error.value);
        assert StoppedAt(d, opts, ops, i, log, error.value);
        return log, report, error;
      }
      match op {
        case CreateNetwork(_, _) => report := report.(networks := report.networks + 1);
        case CreateVolume(_, _) => report := report.(volumes := report.volumes + 1);
        case BuildImage(_, _, _) => report := report.(built := report.built + 1);
        case PullImage(_, _) => report := report.(pulled := report.pulled + 1);
        case RunContainer(service, _, _, _) =>
          ids := ids[service := d.ran(log)];
          report := report.(containers := report.containers[service := d.ran(log)]);
        case _ =>
      }
      FollowedNext(d, opts, ops, i, log0, ids0, log, ids);
    }
  }
}
