/**
 * The cycles that `apply` runs, as cycles over the condition list: what its
 * pre-apply and actions write, and quiescence of repeated calls.
 */
module ApplyCycles {
  import opened Options
  import opened FrameworkConditions
  import opened ManagerRuns
  import opened ReconcileCycles
  import opened FrameworkManager
  import opened ReconcilerApply

  // ----- a cycle as one run of the manager -----

  function ActionEvents(actions: seq<Action>): seq<Event> {
    if actions == [] then []
    else actions[0].events + if actions[0].outcome.Failed? then [] else ActionEvents(actions[1..])
  }

  function ActionFailure(actions: seq<Action>): Option<Failure> {
    if actions == [] then None
    else if actions[0].outcome.Failed? then Some(actions[0].outcome.failure)
    else ActionFailure(actions[1..])
  }

  predicate Stopped(pre: Option<PreApply>) {
    pre.Some? && pre.value.stop
  }

  /** Everything the cycle does to the conditions before the provisioning mark. */
  function Performed(pre: Option<PreApply>, actions: seq<Action>): seq<Event> {
    (if pre.Some? then pre.value.events else []) + if Stopped(pre) then [] else ActionEvents(actions)
  }

  function VerdictOf(pre: Option<PreApply>, actions: seq<Action>): Verdict {
    if Stopped(pre) then PreConditionFailed
    else match ActionFailure(actions) case Some(f) => Broken(f) case None => Succeeded
  }

  lemma {:induction false} RunAppends(a: Aggregator, s: State, es: seq<Event>, fs: seq<Event>)
    ensures Run(a, s, es + fs) == Run(a, Run(a, s, es), fs)
    decreases |es|
  {
    if es == [] {
      assert es + fs == fs;
    } else {
      assert (es + fs)[1..] == es[1..] + fs;
      RunAppends(a, Step(a, s, es[0]), es[1..], fs);
    }
  }

  lemma {:induction false} ActionsAreRun(a: Aggregator, s: State, actions: seq<Action>, requeueAfter: int)
    ensures RunActions(a, s, actions, requeueAfter).state == Run(a, s, ActionEvents(actions))
    ensures RunActions(a, s, actions, requeueAfter).failure == ActionFailure(actions)
    decreases |actions|
  {
    if actions != [] {
      var es := actions[0].events;
      var s' := Run(a, s, es);
      match actions[0].outcome
      case Done =>
        ActionsAreRun(a, s', actions[1..], requeueAfter);
        RunAppends(a, s, es, ActionEvents(actions[1..]));
      case RequeueAfter(after) =>
        ActionsAreRun(a, s', actions[1..], after);
        RunAppends(a, s, es, ActionEvents(actions[1..]));
      case Failed(_) =>
        assert es + [] == es;
    }
  }

  lemma ProvisionIsRun(
      c: Config, cs: seq<Condition>, generation: int, pre: Option<PreApply>, actions: seq<Action>, clock: ApplyClock)
    ensures var p, v := Provision(c, cs, generation, pre, actions, clock), VerdictOf(pre, actions);
            var started := AfterNew(c.aggregator, cs, clock.creation).(active := Some({}));
            && p.verdict == v
            && p.state == AfterSet(
                 c.aggregator, Run(c.aggregator, started, Performed(pre, actions)), ProvisioningMark(c, v, generation),
                 clock.provisioning)
  {
    var a := c.aggregator;
    var started := AfterNew(a, cs, clock.creation).(active := Some({}));
    hide AfterNew, Step;
    var es := if pre.Some? then pre.value.events else [];
    var s := Run(a, started, es);
    if Stopped(pre) {
      assert es + [] == es;
    } else {
      ActionsAreRun(a, s, actions, 0);
      RunAppends(a, started, es, ActionEvents(actions));
    }
  }

  // ----- a cycle of marks -----

  /** Pre-apply and actions do nothing to the conditions but set them. */
  predicate OnlySets(es: seq<Event>) {
    forall e | e in es :: e.op.Set?
  }

  function AsMarks(es: seq<Event>): seq<Mark>
    requires OnlySets(es)
  {
    if es == [] then []
    else
      assert es[0] in es && forall e | e in es[1..] :: e in es;
      [Mark(es[0].op.condition, es[0].at)] + AsMarks(es[1..])
  }

  lemma {:induction false} RunIsMarked(a: Aggregator, s: State, es: seq<Event>, last: Mark)
    requires OnlySets(es)
    ensures Marked(a, s, AsMarks(es) + [last]) == AfterSet(a, Run(a, s, es), last.condition, last.at)
    decreases |es|
  {
    if es == [] {
      assert [last][1..] == [];
      assert AsMarks(es) + [last] == [last];
      assert Marked(a, s, [last]) == Marked(a, AfterSet(a, s, last.condition, last.at), []);
    } else {
      assert es[0] in es && forall e | e in es[1..] :: e in es;
      RunIsMarked(a, Step(a, s, es[0]), es[1..], last);
      var ms := AsMarks(es) + [last];
      assert ms[1..] == AsMarks(es[1..]) + [last];
      assert es[0].op == Set(ms[0].condition) && es[0].at == ms[0].at;
    }
  }

  /** The marks of a whole cycle, the provisioning mark last. */
  function CycleMarks(
      c: Config, generation: int, pre: Option<PreApply>, actions: seq<Action>, clock: ApplyClock): seq<Mark>
    requires OnlySets(Performed(pre, actions))
  {
    AsMarks(Performed(pre, actions))
        + [Mark(ProvisioningMark(c, VerdictOf(pre, actions), generation), clock.provisioning)]
  }

  /** The list `apply` ends with is that of the cycle over its marks. */
  lemma ApplyIsCycle(
      c: Config, cs: seq<Condition>, generation: int, pre: Option<PreApply>, actions: seq<Action>, clock: ApplyClock)
    requires OnlySets(Performed(pre, actions))
    ensures Finished(c, Provision(c, cs, generation, pre, actions, clock).state, clock) ==
            Cycle(c.aggregator, cs, CycleMarks(c, generation, pre, actions, clock), !c.skipConditionCleanup,
                  Clock(clock.creation, clock.cleanup, clock.recompute))
  {
    var a := c.aggregator;
    var started := AfterNew(a, cs, clock.creation).(active := Some({}));
    hide AfterNew, AfterCleanup, Recomputed, Order, Provision, Performed, AfterSet;
    ProvisionIsRun(c, cs, generation, pre, actions, clock);
    RunIsMarked(a, started, Performed(pre, actions),
        Mark(ProvisioningMark(c, VerdictOf(pre, actions), generation), clock.provisioning));
  }

  // ----- what `apply` answers -----

  /** The i-th action is the first that failed. */
  predicate FailsFirst(actions: seq<Action>, i: nat) {
    i < |actions| && actions[i].outcome.Failed? && forall j | 0 <= j < i :: !actions[j].outcome.Failed?
  }

  /** The i-th action is the last that asked for a requeue. */
  predicate RequeuesLast(actions: seq<Action>, i: nat) {
    && i < |actions| && actions[i].outcome.RequeueAfter?
    && forall j | i < j < |actions| :: !actions[j].outcome.RequeueAfter?
  }

  lemma {:induction false} ActionsFailFirst(a: Aggregator, s: State, actions: seq<Action>, requeueAfter: int)
    ensures var f := RunActions(a, s, actions, requeueAfter).failure;
            && (f == None <==> forall x | x in actions :: !x.outcome.Failed?)
            && forall i: nat | FailsFirst(actions, i) :: f == Some(actions[i].outcome.failure)
    decreases |actions|
  {
    if actions != [] {
      var rest := actions[1..];
      assert forall x :: x in actions <==> x == actions[0] || x in rest;
      if !actions[0].outcome.Failed? {
        var after := if actions[0].outcome.RequeueAfter? then actions[0].outcome.after else requeueAfter;
        ActionsFailFirst(a, Run(a, s, actions[0].events), rest, after);
        forall i: nat | FailsFirst(actions, i)
          ensures RunActions(a, s, actions, requeueAfter).failure == Some(actions[i].outcome.failure)
        {
          assert i > 0 && FailsFirst(rest, i - 1) && rest[i - 1] == actions[i];
        }
      }
    }
  }

  lemma {:induction false} ActionsRequeueLast(a: Aggregator, s: State, actions: seq<Action>, requeueAfter: int)
    requires forall x | x in actions :: !x.outcome.Failed?
    ensures var p := RunActions(a, s, actions, requeueAfter);
            && ((forall x | x in actions :: !x.outcome.RequeueAfter?) ==> p.requeueAfter == requeueAfter)
            && forall i: nat | RequeuesLast(actions, i) :: p.requeueAfter == actions[i].outcome.after
    decreases |actions|
  {
    if actions != [] {
      var rest := actions[1..];
      assert actions[0] in actions && forall x | x in rest :: x in actions;
      var after := if actions[0].outcome.RequeueAfter? then actions[0].outcome.after else requeueAfter;
      ActionsRequeueLast(a, Run(a, s, actions[0].events), rest, after);
      forall i: nat | RequeuesLast(actions, i)
        ensures RunActions(a, s, actions, requeueAfter).requeueAfter == actions[i].outcome.after
      {
        if i > 0 {
          assert RequeuesLast(rest, i - 1) && rest[i - 1] == actions[i];
        } else {
          assert forall x | x in rest :: !x.outcome.RequeueAfter? by {
            forall x | x in rest ensures !x.outcome.RequeueAfter? {
              var j :| 0 <= j < |rest| && rest[j] == x;
              assert actions[j + 1] == x;
            }
          }
        }
      }
    }
  }

  /**
   * The answer of a cycle, from its inputs. A failing hook comes before a failing
   * write, and both before provisioning; that is in error exactly when pre-apply
   * let the actions run and one failed, and then reports the first failure, as
   * paused if it asks for a delay.
   */
  lemma ApplyFailsExactlyWhen(
      c: Config, cs: seq<Condition>, generation: int, pre: Option<PreApply>, actions: seq<Action>, clock: ApplyClock,
      hook: Option<string>, writeError: Option<string>)
    ensures var r := Answer(c, Provision(c, cs, generation, pre, actions, clock), hook, writeError);
            && (hook.Some? ==> r == Err(HookFailed(hook.value)))
            && (hook.None? && writeError.Some? ==> r == Err(ReconcileFailed(writeError.value)))
            && (hook.None? && writeError.None? ==>
                  && (r.Err? <==> !Stopped(pre) && exists x | x in actions :: x.outcome.Failed?)
                  && (!Stopped(pre) ==>
                        forall i: nat | FailsFirst(actions, i) ::
                          var f := actions[i].outcome.failure;
                          r == Err(if f.requeueAfter > 0 then ProvisioningPaused(f) else ProvisioningFailed(f))))
  {
    var a := c.aggregator;
    var started := AfterNew(a, cs, clock.creation).(active := Some({}));
    var s := if pre.Some? then Run(a, started, pre.value.events) else started;
    ActionsFailFirst(a, s, actions, 0);
    hide AfterNew, Run, RunActions, FailsFirst;
  }

  /**
   * The delay of a cycle that ends well: half a minute if pre-apply stopped it,
   * else what the last action that asked for a requeue asked for, else the
   * default, which also stands in for zero.
   */
  lemma ApplyDelayIs(
      c: Config, cs: seq<Condition>, generation: int, pre: Option<PreApply>, actions: seq<Action>, clock: ApplyClock)
    requires Stopped(pre) || forall x | x in actions :: !x.outcome.Failed?
    ensures var r := Answer(c, Provision(c, cs, generation, pre, actions, clock), None, None);
            && (Stopped(pre) ==> r == Ok(30))
            && (!Stopped(pre) ==>
                  && ((forall x | x in actions :: !x.outcome.RequeueAfter?) ==> r == Ok(c.defaultRequeueAfter))
                  && forall i: nat | RequeuesLast(actions, i) ::
                       var after := actions[i].outcome.after;
                       r == Ok(if after == 0 then c.defaultRequeueAfter else after))
  {
    var a := c.aggregator;
    var started := AfterNew(a, cs, clock.creation).(active := Some({}));
    var s := if pre.Some? then Run(a, started, pre.value.events) else started;
    if !Stopped(pre) {
      ActionsFailFirst(a, s, actions, 0);
      ActionsRequeueLast(a, s, actions, 0);
    }
    hide AfterNew, Run, RunActions, RequeuesLast, FailsFirst;
  }

  /** An entry that was written lasts to the end of the cycle, unless it is the target. */
  lemma WrittenLasts(c: Config, s: State, kind: string, clock: ApplyClock)
    requires WellFormed(c.aggregator) && s.active.Some? && kind in s.active.value && kind != c.aggregator.target
    ensures Find(Finished(c, s, clock), kind) == Find(s.conditions, kind)
  {
    var a := c.aggregator;
    if !c.skipConditionCleanup {
      CleanupIsRead(a, s, clock.cleanup);
    }
    hide AfterCleanup, Aggregated;
    var cleaned := (if c.skipConditionCleanup then s else AfterCleanup(a, s, clock.cleanup)).conditions;
    SetIsRead(cleaned, Aggregated(a, cleaned), clock.recompute);
    SortKeepsFind(a, Recomputed(a, cleaned, clock.recompute), kind);
  }

  /** What the provisioning condition says when the cycle is over. */
  lemma ProvisioningSays(
      c: Config, cs: seq<Condition>, generation: int, pre: Option<PreApply>, actions: seq<Action>, clock: ApplyClock)
    requires WellFormed(c.aggregator) && c.provisioning != c.aggregator.target
    ensures var after := Provision(c, cs, generation, pre, actions, clock).state;
            var found := Find(Finished(c, after, clock), c.provisioning);
            && found.Some? && found.value.observedGeneration == generation
            && (Stopped(pre) ==>
                  && found.value.status == ConditionFalse && found.value.reason == c.preApplyFailedReason
                  && found.value.message == "pre-conditions not met, see status conditions for details")
            && (!Stopped(pre) && (forall x | x in actions :: !x.outcome.Failed?) ==>
                  found.value.status == ConditionTrue && found.value.reason == "" && found.value.message == "")
            && (!Stopped(pre) ==>
                  forall i: nat | FailsFirst(actions, i) ::
                    && found.value.status == ConditionFalse && found.value.reason == "Error"
                    && found.value.message == actions[i].outcome.failure.text)
  {
    var a := c.aggregator;
    var started := AfterNew(a, cs, clock.creation).(active := Some({}));
    ProvisionIsRun(c, cs, generation, pre, actions, clock);
    var before := Run(a, started, Performed(pre, actions));
    var v := VerdictOf(pre, actions);
    var mark := ProvisioningMark(c, v, generation);
    ActiveStays(a, started, Performed(pre, actions));
    ActionsFailFirst(a, started, actions, 0);
    ActionsAreRun(a, started, actions, 0);
    hide AfterNew, Run, Performed, Finished, Provision, RunActions, FailsFirst;
    AfterSetIsRead(a, before, mark, clock.provisioning);
    WrittenLasts(c, AfterSet(a, before, mark, clock.provisioning), c.provisioning, clock);
  }

  lemma {:induction false} ActiveStays(a: Aggregator, s: State, es: seq<Event>)
    requires s.active.Some?
    ensures Run(a, s, es).active.Some?
    decreases |es|
  {
    if es != [] {
      ActiveStays(a, Step(a, s, es[0]), es[1..]);
    }
  }

  // ----- quiescence of `apply` -----

  /** What one call is given besides the object. */
  datatype Call = Call(generation: int, pre: Option<PreApply>, actions: seq<Action>, clock: ApplyClock)

  /** The call writes each type at most once and never the target, which makes it a cycle of marks. */
  ghost predicate OrderlyCall(c: Config, x: Call) {
    OnlySets(Performed(x.pre, x.actions))
    && Orderly(c.aggregator, CycleMarks(c, x.generation, x.pre, x.actions, x.clock))
  }

  /** Two calls write the same conditions in the same order, at whatever times. */
  predicate SameCalls(c: Config, x: Call, y: Call)
    requires OnlySets(Performed(x.pre, x.actions)) && OnlySets(Performed(y.pre, y.actions))
  {
    SameMarks(CycleMarks(c, x.generation, x.pre, x.actions, x.clock),
        CycleMarks(c, y.generation, y.pre, y.actions, y.clock))
  }

  ghost function AfterApply(c: Config, cs: seq<Condition>, x: Call): seq<Condition> {
    Finished(c, Provision(c, cs, x.generation, x.pre, x.actions, x.clock).state, x.clock)
  }

  /** A second call with the same marks leaves the whole list as the first one left it. */
  lemma ApplyQuiescence(c: Config, cs: seq<Condition>, x: Call, y: Call)
    requires WellFormed(c.aggregator) && OrderlyCall(c, x)
    requires OnlySets(Performed(y.pre, y.actions)) && SameCalls(c, x, y)
    ensures AfterApply(c, AfterApply(c, cs, x), y) == AfterApply(c, cs, x)
  {
    hide Finished, Provision, Cycle, CycleMarks, Performed, OnlySets;
    ApplyIsCycle(c, cs, x.generation, x.pre, x.actions, x.clock);
    ApplyIsCycle(c, AfterApply(c, cs, x), y.generation, y.pre, y.actions, y.clock);
    Quiescence(
      c.aggregator, cs, CycleMarks(c, x.generation, x.pre, x.actions, x.clock),
      CycleMarks(c, y.generation, y.pre, y.actions, y.clock), !c.skipConditionCleanup,
      Clock(x.clock.creation, x.clock.cleanup, x.clock.recompute),
      Clock(y.clock.creation, y.clock.cleanup, y.clock.recompute));
  }

  /** The same on an object: two calls of `apply` in a row, and the status is the first call's, phase included. */
  method ApplyTwice(r: Reconciler, status: StatusBlock, x: Call, y: Call)
    requires WellFormed(r.config.aggregator) && OrderlyCall(r.config, x)
    requires OnlySets(Performed(y.pre, y.actions)) && SameCalls(r.config, x, y) && x.generation == y.generation
    modifies status
    ensures var cs := AfterApply(r.config, old(status.conditions), x);
            && status.conditions == cs
            && status.phase == (if Happy(r.config, cs) then r.config.phaseReady else r.config.phaseNotReady)
            && status.observedGeneration
                == (if Happy(r.config, cs) then x.generation else old(status.observedGeneration))
  {
    hide Finished, Provision, Performed, OnlySets, CycleMarks;
    ghost var cs := status.conditions;
    var _ := r.Apply(status, x.generation, x.pre, x.actions, None, false, None, x.clock);
    var _ := r.Apply(status, y.generation, y.pre, y.actions, None, false, None, y.clock);
    ApplyQuiescence(r.config, cs, x, y);
  }
}
