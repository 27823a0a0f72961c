/**
 * The `apply` cycle of the reconciler: run the actions, mark provisioning,
 * clean up, recompute, sort, set the phase. When may it say Ready?
 */
module ReconcilerApply {
  import opened Options
  import opened Sorting
  import opened FrameworkConditions
  import opened ManagerRuns
  import opened FrameworkManager

  const REASON_ERROR := "Error"
  const PRE_APPLY_REQUEUE := 30

  /** An action's error; a `StopError` also carries a requeue delay. */
  datatype Failure = Failure(text: string, requeueAfter: int)

  datatype Outcome = Done | RequeueAfter(after: int) | Failed(failure: Failure)

  /** What an action does to the conditions, and how it ends. */
  datatype Action = Action(events: seq<Event>, outcome: Outcome)

  datatype PreApply = PreApply(events: seq<Event>, stop: bool)

  datatype ApplyError =
    | HookFailed(text: string)
    | ReconcileFailed(text: string)
    | ProvisioningPaused(failure: Failure)
    | ProvisioningFailed(failure: Failure)

  /** How provisioning went, as the provisioning condition reports it. */
  datatype Verdict = Succeeded | PreConditionFailed | Broken(failure: Failure)

  datatype Config = Config(
    aggregator: Aggregator,
    provisioning: string,
    preApplyFailedReason: string,
    phaseReady: string,
    phaseNotReady: string,
    skipConditionCleanup: bool,
    defaultRequeueAfter: int)

  datatype Progress = Progress(state: State, failure: Option<Failure>, requeueAfter: int)

  ghost function RunActions(a: Aggregator, s: State, actions: seq<Action>, requeueAfter: int): Progress
    decreases |actions|
  {
    if actions == [] then Progress(s, None, requeueAfter)
    else
      var s' := Run(a, s, actions[0].events);
      match actions[0].outcome
      case Done => RunActions(a, s', actions[1..], requeueAfter)
      case RequeueAfter(after) => RunActions(a, s', actions[1..], after)
      case Failed(failure) => Progress(s', Some(failure), requeueAfter)
  }

  function ProvisioningMark(c: Config, v: Verdict, generation: int): Condition {
    match v
    case Succeeded => Plain(c.provisioning, ConditionTrue).(observedGeneration := generation)
    case PreConditionFailed =>
      Plain(c.provisioning, ConditionFalse)
      .(reason := c.preApplyFailedReason,
        message := "pre-conditions not met, see status conditions for details",
        observedGeneration := generation)
    case Broken(failure) =>
      Plain(c.provisioning, ConditionFalse)
      .(reason := REASON_ERROR, message := failure.text, observedGeneration := generation)
  }

  /** The times `apply` itself reads. */
  datatype ApplyClock = ApplyClock(creation: Instant, provisioning: Instant, cleanup: Instant, recompute: Instant)

  datatype Provisioned = Provisioned(state: State, verdict: Verdict, requeueAfter: int)

  /** The state after pre-apply, the actions and the provisioning mark. */
  ghost function Provision(
      c: Config, cs: seq<Condition>, generation: int, pre: Option<PreApply>, actions: seq<Action>,
      clock: ApplyClock): Provisioned
  {
    var started := AfterNew(c.aggregator, cs, clock.creation).(active := Some({}));
    var s := if pre.Some? then Run(c.aggregator, started, pre.value.events) else started;
    var stopped := pre.Some? && pre.value.stop;
    var p := if stopped then Progress(s, None, PRE_APPLY_REQUEUE) else RunActions(c.aggregator, s, actions, 0);
    var v := if stopped then PreConditionFailed else if p.failure.Some? then Broken(p.failure.value) else Succeeded;
    Provisioned(AfterSet(c.aggregator, p.state, ProvisioningMark(c, v, generation), clock.provisioning), v,
        p.requeueAfter)
  }

  ghost function Finished(c: Config, s: State, clock: ApplyClock): seq<Condition> {
    var cleaned := if c.skipConditionCleanup then s else AfterCleanup(c.aggregator, s, clock.cleanup);
    StableSort(Order(c.aggregator), Recomputed(c.aggregator, cleaned.conditions, clock.recompute))
  }

  ghost predicate Happy(c: Config, cs: seq<Condition>) {
    AnyTrue(cs, c.aggregator.target)
  }

  /** What `apply` answers: hook and write errors first, then provisioning, then the requeue delay. */
  function Answer(
      c: Config, p: Provisioned, hook: Option<string>, writeError: Option<string>): Result<int, ApplyError>
  {
    if hook.Some? then Err(HookFailed(hook.value))
    else if writeError.Some? then Err(ReconcileFailed(writeError.value))
    else if p.verdict.Broken? then
      Err(if p.verdict.failure.requeueAfter > 0 then ProvisioningPaused(p.verdict.failure)
          else ProvisioningFailed(p.verdict.failure))
    else Ok(if p.requeueAfter == 0 then c.defaultRequeueAfter else p.requeueAfter)
  }

  class Reconciler {
    const config: Config

    constructor (config: Config)
      ensures this.config == config
    {
      this.config := config;
    }

    /** The pre-apply check, the actions, and the provisioning mark they lead to. */
    method ProvisionWith(conditions: Manager, generation: int, pre: Option<PreApply>, actions: seq<Action>,
        clock: ApplyClock,
        ghost cs: seq<Condition>)
      returns (verdict: Verdict, requeueAfter: int)
      requires conditions.aggregator == Some(config.aggregator)
      requires conditions.Now() == AfterNew(config.aggregator, cs, clock.creation)
      modifies conditions, conditions.accessor`conditions
      ensures Provisioned(conditions.Now(), verdict, requeueAfter)
                == Provision(config, cs, generation, pre, actions, clock)
    {
      var a := config.aggregator;
      conditions.Reset();
      var shouldStop := false;
      if pre.Some? {
        conditions.PerformAll(pre.value.events);
        shouldStop := pre.value.stop;
      }
      ghost var begun := conditions.Now();
      if shouldStop {
        requeueAfter := PRE_APPLY_REQUEUE;
        verdict := PreConditionFailed;
      } else {
        requeueAfter := 0;
        verdict := Succeeded;
        for i := 0 to |actions|
          invariant verdict.Succeeded?
          invariant RunActions(a, conditions.Now(), actions[i..], requeueAfter) == RunActions(a, begun, actions, 0)
        {
          assert actions[i..][0] == actions[i] && actions[i..][1..] == actions[i + 1..];
          conditions.PerformAll(actions[i].events);
          match actions[i].outcome {
            case Done =>
            case RequeueAfter(after) =>
              requeueAfter := after;
            case Failed(failure) =>
              verdict := Broken(failure);
              break;
          }
        }
      }
      conditions.SetCondition(ProvisioningMark(config, verdict, generation), clock.provisioning);
    }

    /** Cleanup, recomputation and sort: the list the phase is read from. */
    method Finish(conditions: Manager, clock: ApplyClock) returns (isHappy: bool)
      requires conditions.aggregator == Some(config.aggregator)
      modifies conditions.accessor`conditions
      ensures conditions.accessor.conditions == Finished(config, old(conditions.Now()), clock)
      ensures isHappy <==> Happy(config, conditions.accessor.conditions)
    {
      if !config.skipConditionCleanup {
        conditions.CleanupStaleConditions(clock.cleanup);
      }
      conditions.RecomputeHappiness(clock.recompute);
      conditions.Sort();
      isHappy := conditions.IsHappy();
    }

    /**
     * One provisioning cycle on the object whose status is `status`. The hook
     * and the status write are given by how they end; `skipStatus` is the
     * value of the skip predicate.
     */
    method Apply(
        status: StatusBlock, generation: int, pre: Option<PreApply>, actions: seq<Action>,
        hook: Option<string>, skipStatus: bool, writeError: Option<string>, clock: ApplyClock)
      returns (r: Result<int, ApplyError>)
      modifies status
      ensures
        var p := Provision(config, old(status.conditions), generation, pre, actions, clock);
        var cs := Finished(config, p.state, clock);
        && (if hook.None? && skipStatus then
              status.conditions == [] && status.phase == "" && status.observedGeneration == 0
            else
              && status.conditions == cs
              && status.phase == (if Happy(config, cs) then config.phaseReady else config.phaseNotReady)
              && status.observedGeneration
                  == (if Happy(config, cs) then generation else old(status.observedGeneration)))
        && r == Answer(config, p, hook, writeError)
    {
      ghost var before := status.conditions;
      var conditions := new Manager(status, Some(config.aggregator), clock.creation);
      var verdict, requeueAfter := ProvisionWith(conditions, generation, pre, actions, clock, before);
      status.phase := config.phaseNotReady;
      var isHappy := Finish(conditions, clock);
      if isHappy {
        status.phase := config.phaseReady;
        status.observedGeneration := generation;
      }

      if hook.Some? {
        return Err(HookFailed(hook.value));
      }
      if skipStatus {
        status.conditions := [];
        status.phase := "";
        status.observedGeneration := 0;
      }
      if writeError.Some? {
        return Err(ReconcileFailed(writeError.value));
      }
      if verdict.Broken? {
        if verdict.failure.requeueAfter > 0 {
          return Err(ProvisioningPaused(verdict.failure));
        }
        return Err(ProvisioningFailed(verdict.failure));
      }
      if requeueAfter == 0 {
        requeueAfter := config.defaultRequeueAfter;
      }
      return Ok(requeueAfter);
    }
  }
}
