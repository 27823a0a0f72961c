/**
 * When `apply` may call an object Ready: exactly what the phase says about the
 * cycle that set it, and the two configurations in which it says too much.
 */
module ReadySoundness {
  import opened Options
  import opened Ordering
  import opened Sorting
  import opened FrameworkConditions
  import opened ManagerRuns
  import opened ReconcileCycles
  import opened FrameworkManager
  import opened ReconcilerApply
  import opened ApplyCycles

  // ----- target entries beyond the first -----

  function Tail<T>(s: seq<T>): seq<T> {
    if s == [] then [] else s[1..]
  }

  /** The entries of the target type that no lookup and no write ever reaches. */
  function Extras(a: Aggregator, cs: seq<Condition>): seq<Condition> {
    Tail(Filter(OfKind(a.target), cs))
  }

  /** The list carries a second target entry that says True. */
  ghost predicate StrayTrue(a: Aggregator, cs: seq<Condition>) {
    exists c | c in Extras(a, cs) :: c.status == ConditionTrue
  }

  lemma {:induction false} FirstIsHeadOfFilter<T>(p: T -> bool, s: seq<T>)
    ensures First(p, s) == if Filter(p, s) == [] then None else Some(Filter(p, s)[0])
  {
    if s != [] {
      FirstIsHeadOfFilter(p, s[1..]);
    }
  }

  lemma {:induction false} ExtrasAfterUpsert(a: Aggregator, cs: seq<Condition>, n: Condition)
    ensures Extras(a, Upsert(cs, n)) == Extras(a, cs)
  {
    var p := OfKind(a.target);
    if n.kind != a.target {
      FilterHidesUpsert(p, cs, n);
    } else if cs == [] {
      assert [n][1..] == [];
    } else if cs[0].kind == n.kind {
      FilterCons(p, Updated(cs[0], n), cs[1..]);
      assert ([Updated(cs[0], n)] + Filter(p, cs[1..]))[1..] == Filter(p, cs[1..]);
      assert ([cs[0]] + Filter(p, cs[1..]))[1..] == Filter(p, cs[1..]);
    } else {
      ExtrasAfterUpsert(a, cs[1..], n);
      FilterCons(p, cs[0], Upsert(cs[1..], n));
    }
  }

  lemma ExtrasAfterFilter(a: Aggregator, p: Condition -> bool, cs: seq<Condition>)
    requires forall c: Condition | c.kind == a.target :: p(c)
    ensures Extras(a, Filter(p, cs)) == Extras(a, cs)
  {
    FilterTwice(OfKind(a.target), p, OfKind(a.target), cs);
  }

  lemma ExtrasAfterSort(a: Aggregator, cs: seq<Condition>)
    ensures Extras(a, StableSort(Order(a), cs)) == Extras(a, cs)
  {
    OrderIsTotal(a);
    SortThenFilter(Order(a), OfKind(a.target), cs);
    var f := Filter(OfKind(a.target), cs);
    FilterMembers(OfKind(a.target), cs);
    forall i, j | 0 <= i < j < |f| ensures Order(a)(f[i], f[j]) {
      assert f[i] in f && f[j] in f;
    }
    SortOfSorted(Order(a), f);
  }

  lemma {:induction false} ExtrasAfterMarkUnset(
      a: Aggregator, cs: seq<Condition>, kinds: seq<string>, active: set<string>, now: Instant)
    ensures Extras(a, MarkUnset(a, cs, kinds, active, now)) == Extras(a, cs)
    decreases |kinds|
  {
    if kinds != [] {
      ExtrasAfterUpsert(a, cs, Stamped(Unset(a, kinds[0]), now));
      var marked := if kinds[0] in active then cs else SetStatus(cs, Unset(a, kinds[0]), now);
      ExtrasAfterMarkUnset(a, marked, kinds[1..], active, now);
    }
  }

  lemma ExtrasAfterRecompute(a: Aggregator, cs: seq<Condition>, now: Instant)
    ensures Extras(a, Recomputed(a, cs, now)) == Extras(a, cs)
  {
    ExtrasAfterUpsert(a, cs, Stamped(Aggregated(a, cs), now));
  }

  /** Only clearing the target touches the extra entries, and it removes them all. */
  lemma ExtrasAfterStep(a: Aggregator, s: State, e: Event)
    ensures Extras(a, Step(a, s, e).conditions) ==
            if e.op == Clear(a.target) && Has(s.conditions, a.target) then [] else Extras(a, s.conditions)
  {
    match e.op
    case Set(c) =>
      ExtrasAfterUpsert(a, s.conditions, Stamped(c, e.at));
      ExtrasAfterRecompute(a, SetStatus(s.conditions, c, e.at), e.at);
    case Clear(kind) =>
      var kept := RemoveStatus(s.conditions, kind);
      ExtrasAfterRecompute(a, kept, e.at);
      FilterShorter(NotOfKind(kind), s.conditions);
      FirstFinds(OfKind(kind), s.conditions);
      FilterMembers(NotOfKind(kind), s.conditions);
      if kind != a.target {
        ExtrasAfterFilter(a, NotOfKind(kind), s.conditions);
      } else if Has(s.conditions, kind) {
        assert Find(s.conditions, kind).value in s.conditions;
        FilterNone(OfKind(a.target), kept);
      } else {
        FilterAll(NotOfKind(kind), s.conditions);
      }
    case Recompute =>
      ExtrasAfterRecompute(a, s.conditions, e.at);
    case Reset =>
    case Cleanup =>
      if s.active.Some? {
        var kinds := Listing(a.dependents.Keys);
        var marked := MarkUnset(a, s.conditions, kinds, s.active.value, e.at);
        ExtrasAfterMarkUnset(a, s.conditions, kinds, s.active.value, e.at);
        ExtrasAfterFilter(a, Survives(a, s.active.value), marked);
        ExtrasAfterRecompute(a, Filter(Survives(a, s.active.value), marked), e.at);
      }
    case Sort =>
      ExtrasAfterSort(a, s.conditions);
  }

  lemma {:induction false} StrayAfterRun(a: Aggregator, s: State, es: seq<Event>)
    ensures StrayTrue(a, Run(a, s, es).conditions) ==> StrayTrue(a, s.conditions)
    ensures (forall e | e in es :: e.op != Clear(a.target)) ==>
              Extras(a, Run(a, s, es).conditions) == Extras(a, s.conditions)
    decreases |es|
  {
    if es != [] {
      ExtrasAfterStep(a, s, es[0]);
      StrayAfterRun(a, Step(a, s, es[0]), es[1..]);
    }
  }

  /** What a lookup of the target misses is what the stray entries say. */
  lemma AnyTrueSplits(a: Aggregator, cs: seq<Condition>)
    requires Has(cs, a.target)
    ensures AnyTrue(cs, a.target) <==> Find(cs, a.target).value.status == ConditionTrue || StrayTrue(a, cs)
  {
    var f := Filter(OfKind(a.target), cs);
    FirstIsHeadOfFilter(OfKind(a.target), cs);
    FilterMembers(OfKind(a.target), cs);
    hide Filter, First;
    assert Find(cs, a.target) == Some(f[0]) && f[0] in f;
    assert Extras(a, cs) == f[1..];
    if AnyTrue(cs, a.target) {
      var c :| c in cs && c.kind == a.target && c.status == ConditionTrue;
      assert c in f && (c == f[0] || c in f[1..]);
    }
    if StrayTrue(a, cs) {
      var c :| c in Extras(a, cs) && c.status == ConditionTrue;
      assert c in f;
      assert c in cs && c.kind == a.target;
    }
  }

  /** A target in step shows happy exactly when the aggregate is True or a stray entry says so. */
  lemma HappyExactlyWhen(a: Aggregator, cs: seq<Condition>)
    requires InSync(a, cs)
    ensures AnyTrue(cs, a.target) <==> Aggregated(a, cs).status == ConditionTrue || StrayTrue(a, cs)
  {
    hide AnyTrue, StrayTrue, Aggregated, Find;
    AnyTrueSplits(a, cs);
  }

  // ----- the verdict of a cycle -----

  /** Every dependent written, and every considered condition written this cycle healthy. */
  ghost predicate Sound(a: Aggregator, s: State) {
    && s.active.Some?
    && a.dependents.Keys <= s.active.value
    && forall c | c in s.conditions && c.kind in s.active.value && Considered(a, c) :: Healthy(a, c)
  }

  lemma RecomputeKeepsConsidered(a: Aggregator, cs: seq<Condition>, now: Instant)
    ensures forall c | Considered(a, c) :: c in Recomputed(a, cs, now) <==> c in cs
  {
    FilterHidesUpsert(ConsideredBy(a), cs, Stamped(Aggregated(a, cs), now));
    FilterMembers(ConsideredBy(a), cs);
    FilterMembers(ConsideredBy(a), Recomputed(a, cs, now));
  }

  lemma UnwrittenDependentBlocks(a: Aggregator, s: State, d: string, now: Instant)
    requires WellFormed(a) && s.active.Some? && d in a.dependents && d !in s.active.value
    ensures exists c | c in AfterCleanup(a, s, now).conditions :: Blocks(a, c)
  {
    hide AfterCleanup, First;
    CleanupIsRead(a, s, now);
    var cs := AfterCleanup(a, s, now).conditions;
    FirstFinds(OfKind(d), cs);
    var c := Find(cs, d).value;
    assert c in cs && Same(c, Unset(a, d)) && c.kind == d;
    assert d in a.dependents.Keys && |a.dependents.Keys| > 0;
    assert Blocks(a, c);
  }

  lemma CleanupOfWritten(a: Aggregator, s: State, now: Instant)
    requires s.active.Some? && a.dependents.Keys <= s.active.value
    ensures forall c | Considered(a, c) ::
              c in AfterCleanup(a, s, now).conditions <==> c in s.conditions && c.kind in s.active.value
  {
    var active, kinds := s.active.value, Listing(a.dependents.Keys);
    assert forall k | k in kinds :: k in Elements(kinds);
    CleanupOfSettled(a, s.conditions, kinds, active, now);
    NothingUnset(a, s.conditions, kinds, active, now);
    var kept := Filter(Survives(a, active), s.conditions);
    FilterMembers(Survives(a, active), s.conditions);
    RecomputeKeepsConsidered(a, kept, now);
  }

  lemma CleanedHealthyExactlyWhen(a: Aggregator, s: State, now: Instant)
    requires WellFormed(a) && s.active.Some?
    ensures Aggregated(a, AfterCleanup(a, s, now).conditions).status == ConditionTrue <==> Sound(a, s)
  {
    AggregateTrueMeansAllHealthy(a, AfterCleanup(a, s, now).conditions);
    if a.dependents.Keys <= s.active.value {
      CleanupOfWritten(a, s, now);
    } else {
      var d :| d in a.dependents.Keys && d !in s.active.value;
      UnwrittenDependentBlocks(a, s, d, now);
    }
  }

  /** What the list the phase is read from says, with cleanup on. */
  lemma ReadyExactlyWhen(c: Config, s: State, clock: ApplyClock)
    requires WellFormed(c.aggregator) && s.active.Some? && !c.skipConditionCleanup
    ensures Happy(c, Finished(c, s, clock)) <==> Sound(c.aggregator, s) || StrayTrue(c.aggregator, s.conditions)
    ensures Aggregated(c.aggregator, Finished(c, s, clock)).status == ConditionTrue <==> Sound(c.aggregator, s)
  {
    var a := c.aggregator;
    var cleaned := AfterCleanup(a, s, clock.cleanup).conditions;
    var recomputed := Recomputed(a, cleaned, clock.recompute);
    hide AfterCleanup, Recomputed, Aggregated, AnyTrue, Sound, StableSort, Filter, First, Considered;
    CleanedHealthyExactlyWhen(a, s, clock.cleanup);
    RecomputeSyncs(a, cleaned, clock.recompute);
    SortKeepsFind(a, recomputed, a.target);
    SortKeepsAggregate(a, recomputed);
    HappyExactlyWhen(a, StableSort(Order(a), recomputed));
    ExtrasAfterStep(a, s, Event(Cleanup, clock.cleanup));
    ExtrasAfterRecompute(a, cleaned, clock.recompute);
    ExtrasAfterSort(a, recomputed);
  }

  // ----- what was written -----

  function Written(es: seq<Event>): set<string> {
    set e | e in es && e.op.Set? :: e.op.condition.kind
  }

  function WrittenByActions(actions: seq<Action>): set<string> {
    if actions == [] then {} else Written(actions[0].events) + WrittenByActions(actions[1..])
  }

  lemma ActiveAfterStep(a: Aggregator, s: State, e: Event)
    requires s.active.Some?
    ensures var after := Step(a, s, e).active;
            after.Some? && after.value <= s.active.value + if e.op.Set? then {e.op.condition.kind} else {}
  {
    hide Recomputed, MarkUnset, AnyUnset;
  }

  lemma {:induction false} ActiveWereWritten(a: Aggregator, s: State, es: seq<Event>)
    requires s.active.Some?
    ensures Run(a, s, es).active.Some? && Run(a, s, es).active.value <= s.active.value + Written(es)
    decreases |es|
  {
    if es != [] {
      assert es == [es[0]] + es[1..];
      ActiveAfterStep(a, s, es[0]);
      hide Step;
      ActiveWereWritten(a, Step(a, s, es[0]), es[1..]);
      assert Written(es) == Written([es[0]]) + Written(es[1..]);
      assert es[0].op.Set? ==> es[0].op.condition.kind in Written([es[0]]) by {
        assert es[0] in [es[0]];
      }
    }
  }

  lemma {:induction false} ActionsWriteAndStray(a: Aggregator, s: State, actions: seq<Action>, requeueAfter: int)
    requires s.active.Some?
    ensures var p := RunActions(a, s, actions, requeueAfter);
            && p.state.active.Some?
            && p.state.active.value <= s.active.value + WrittenByActions(actions)
            && (StrayTrue(a, p.state.conditions) ==> StrayTrue(a, s.conditions))
            && (p.failure.None? <==> forall x | x in actions :: !x.outcome.Failed?)
    decreases |actions|
  {
    if actions != [] {
      assert actions == [actions[0]] + actions[1..];
      var s' := Run(a, s, actions[0].events);
      ActiveWereWritten(a, s, actions[0].events);
      StrayAfterRun(a, s, actions[0].events);
      match actions[0].outcome
      case Done => ActionsWriteAndStray(a, s', actions[1..], requeueAfter);
      case RequeueAfter(after) => ActionsWriteAndStray(a, s', actions[1..], after);
      case Failed(_) =>
    }
  }

  lemma {:induction false} ExtrasAfterSeeding(a: Aggregator, s: State, kinds: seq<string>, now: Instant)
    ensures Extras(a, Seeded(a, s, kinds, now).conditions) == Extras(a, s.conditions)
    decreases |kinds|
  {
    if kinds != [] {
      ExtrasAfterStep(a, s, Event(Set(Plain(kinds[0], ConditionUnknown)), now));
      ExtrasAfterSeeding(
        a, if Has(s.conditions, kinds[0]) then s
            else AfterSet(a, s, Plain(kinds[0], ConditionUnknown), now), kinds[1..], now);
    }
  }

  function WrittenBefore(pre: Option<PreApply>): set<string> {
    if pre.Some? then Written(pre.value.events) else {}
  }

  lemma ProvisionFacts(
      c: Config, cs: seq<Condition>, generation: int, pre: Option<PreApply>, actions: seq<Action>, clock: ApplyClock)
    ensures var p := Provision(c, cs, generation, pre, actions, clock);
            && p.state.active.Some? && c.provisioning in p.state.active.value
            && p.state.active.value <= {c.provisioning} + WrittenBefore(pre) + WrittenByActions(actions)
            && (StrayTrue(c.aggregator, p.state.conditions) ==> StrayTrue(c.aggregator, cs))
            && (p.verdict.Succeeded? <==>
                !(pre.Some? && pre.value.stop) && forall x | x in actions :: !x.outcome.Failed?)
  {
    var a := c.aggregator;
    var started := AfterNew(a, cs, clock.creation).(active := Some({}));
    var s := if pre.Some? then Run(a, started, pre.value.events) else started;
    ProvisionStray(c, cs, generation, pre, actions, clock);
    if pre.Some? {
      ActiveWereWritten(a, started, pre.value.events);
    }
    ActionsWriteAndStray(a, s, actions, 0);
    hide AfterNew, StrayTrue, Run, RunActions;
  }

  /** A cycle adds no stray entry. */
  lemma ProvisionStray(
      c: Config, cs: seq<Condition>, generation: int, pre: Option<PreApply>, actions: seq<Action>, clock: ApplyClock)
    ensures StrayTrue(c.aggregator, Provision(c, cs, generation, pre, actions, clock).state.conditions) ==>
              StrayTrue(c.aggregator, cs)
  {
    var a := c.aggregator;
    var started := AfterNew(a, cs, clock.creation).(active := Some({}));
    ExtrasAfterSeeding(a, State(cs, None), [a.target] + Listing(a.dependents.Keys), clock.creation);
    hide Run, RunActions, Extras, WrittenByActions, Seeded;
    var s := if pre.Some? then Run(a, started, pre.value.events) else started;
    if pre.Some? {
      ActiveWereWritten(a, started, pre.value.events);
      StrayAfterRun(a, started, pre.value.events);
    }
    ActionsWriteAndStray(a, s, actions, 0);
    var p := Provision(c, cs, generation, pre, actions, clock);
    var stopped := pre.Some? && pre.value.stop;
    var before := if stopped then s else RunActions(a, s, actions, 0).state;
    ExtrasAfterStep(a, before, Event(Set(ProvisioningMark(c, p.verdict, generation)), clock.provisioning));
  }

  // ----- soundness -----

  /** Provisioning takes part in the aggregate, and False is its unhealthy status. */
  predicate Guarded(a: Aggregator, provisioning: string) {
    && provisioning != a.target
    && (a.dependents == map[] || provisioning in a.dependents)
    && PolarityFor(a, provisioning) != HealthyWhenFalse
  }

  lemma FailedProvisioningIsUnsound(c: Config, s: State, v: Verdict, generation: int, now: Instant)
    requires Guarded(c.aggregator, c.provisioning) && !v.Succeeded? && s.active.Some?
    ensures !Sound(c.aggregator, AfterSet(c.aggregator, s, ProvisioningMark(c, v, generation), now))
  {
    var a, mark := c.aggregator, ProvisioningMark(c, v, generation);
    var t := AfterSet(a, s, mark, now);
    AfterSetIsRead(a, s, mark, now);
    FirstFinds(OfKind(c.provisioning), t.conditions);
    var entry := Find(t.conditions, c.provisioning).value;
    assert entry in t.conditions && Same(entry, mark) && entry.kind == c.provisioning;
    assert |a.dependents| == 0 <==> a.dependents == map[];
    assert Considered(a, entry) && !Healthy(a, entry);
  }

  /**
   * Ready soundness. With cleanup on and provisioning guarded, on an object
   * whose status carries no stray True target, a cycle ends Ready only if
   * pre-apply passed, no action failed, every dependent was written in this
   * cycle, and every considered condition left in the status is healthy.
   */
  lemma ReadyIsSound(
      c: Config, cs: seq<Condition>, generation: int, pre: Option<PreApply>, actions: seq<Action>, clock: ApplyClock)
    requires WellFormed(c.aggregator) && Guarded(c.aggregator, c.provisioning) && !c.skipConditionCleanup
    requires !StrayTrue(c.aggregator, cs)
    requires Happy(c, Finished(c, Provision(c, cs, generation, pre, actions, clock).state, clock))
    ensures !(pre.Some? && pre.value.stop) && forall x | x in actions :: !x.outcome.Failed?
    ensures c.aggregator.dependents.Keys <= {c.provisioning} + WrittenBefore(pre) + WrittenByActions(actions)
    ensures forall x | x in Finished(c, Provision(c, cs, generation, pre, actions, clock).state, clock) ::
              x.kind in c.aggregator.dependents ==> x.severity == SeverityInfo || Healthy(c.aggregator, x)
  {
    var a := c.aggregator;
    var p := Provision(c, cs, generation, pre, actions, clock);
    ProvisionFacts(c, cs, generation, pre, actions, clock);
    ReadyExactlyWhen(c, p.state, clock);
    assert Sound(a, p.state);
    if !p.verdict.Succeeded? {
      ActiveBeforeMark(c, cs, generation, pre, actions, clock);
      FailedProvisioningIsUnsound(c, StateBeforeMark(c, cs, pre, actions, clock), p.verdict, generation,
          clock.provisioning);
      assert false;
    }
    var final := Finished(c, p.state, clock);
    AggregateTrueMeansAllHealthy(a, final);
    forall x | x in final && x.kind in a.dependents && x.severity != SeverityInfo ensures Healthy(a, x) {
      assert x.kind in a.dependents.Keys && |a.dependents.Keys| > 0;
      assert Considered(a, x);
    }
  }

  ghost function StateBeforeMark(
      c: Config, cs: seq<Condition>, pre: Option<PreApply>, actions: seq<Action>, clock: ApplyClock): State
  {
    var started := AfterNew(c.aggregator, cs, clock.creation).(active := Some({}));
    var s := if pre.Some? then Run(c.aggregator, started, pre.value.events) else started;
    if pre.Some? && pre.value.stop then s else RunActions(c.aggregator, s, actions, 0).state
  }

  lemma ActiveBeforeMark(
      c: Config, cs: seq<Condition>, generation: int, pre: Option<PreApply>, actions: seq<Action>, clock: ApplyClock)
    ensures var s := StateBeforeMark(c, cs, pre, actions, clock);
            var p := Provision(c, cs, generation, pre, actions, clock);
            && s.active.Some?
            && p.state == AfterSet(c.aggregator, s, ProvisioningMark(c, p.verdict, generation), clock.provisioning)
  {
    var a := c.aggregator;
    var started := AfterNew(a, cs, clock.creation).(active := Some({}));
    var s := if pre.Some? then Run(a, started, pre.value.events) else started;
    if pre.Some? {
      ActiveWereWritten(a, started, pre.value.events);
    }
    ActionsWriteAndStray(a, s, actions, 0);
  }

  /**
   * A stray True target makes every cycle end Ready, whatever its pre-apply and
   * its actions do and however they end, unless one of them clears the target.
   */
  lemma StrayTargetAlwaysReady(
      c: Config, cs: seq<Condition>, generation: int, pre: Option<PreApply>, actions: seq<Action>, clock: ApplyClock)
    requires WellFormed(c.aggregator) && StrayTrue(c.aggregator, cs)
    requires forall e | e in Performed(pre, actions) :: e.op != Clear(c.aggregator.target)
    ensures Happy(c, Finished(c, Provision(c, cs, generation, pre, actions, clock).state, clock))
  {
    var a := c.aggregator;
    var p := Provision(c, cs, generation, pre, actions, clock);
    var started := AfterNew(a, cs, clock.creation).(active := Some({}));
    ProvisionIsRun(c, cs, generation, pre, actions, clock);
    ProvisionFacts(c, cs, generation, pre, actions, clock);
    ExtrasAfterSeeding(a, State(cs, None), [a.target] + Listing(a.dependents.Keys), clock.creation);
    StrayAfterRun(a, started, Performed(pre, actions));
    var before := Run(a, started, Performed(pre, actions));
    ExtrasAfterStep(a, before, Event(Set(ProvisioningMark(c, p.verdict, generation)), clock.provisioning));
    if c.skipConditionCleanup {
      StrayShows(c, p.state, clock);
    } else {
      ReadyExactlyWhen(c, p.state, clock);
    }
  }

  lemma StrayShows(c: Config, s: State, clock: ApplyClock)
    requires c.skipConditionCleanup && StrayTrue(c.aggregator, s.conditions)
    ensures Happy(c, Finished(c, s, clock))
  {
    var a := c.aggregator;
    var recomputed := Recomputed(a, s.conditions, clock.recompute);
    RecomputeSyncs(a, s.conditions, clock.recompute);
    SortKeepsFind(a, recomputed, a.target);
    SortKeepsAggregate(a, recomputed);
    ExtrasAfterRecompute(a, s.conditions, clock.recompute);
    ExtrasAfterSort(a, recomputed);
    hide Recomputed, Aggregated, StableSort, AnyTrue;
    HappyExactlyWhen(a, StableSort(Order(a), recomputed));
  }

  // ----- provisioning must be guarded -----

  function AllHealthy(a: Aggregator, kinds: seq<string>, now: Instant): seq<Mark> {
    if kinds == [] then []
    else [Mark(Plain(kinds[0], HealthyStatus(a, kinds[0])), now)] + AllHealthy(a, kinds[1..], now)
  }

  lemma {:induction false} AllHealthyMarks(a: Aggregator, kinds: seq<string>, now: Instant)
    requires Distinct(kinds) && a.target !in kinds
    ensures Orderly(a, AllHealthy(a, kinds, now))
    ensures Kinds(AllHealthy(a, kinds, now)) == Elements(kinds)
    ensures forall k | k in kinds ::
              exists m | m in AllHealthy(a, kinds, now) :: m.condition == Plain(k, HealthyStatus(a, k))
  {
    var ms := AllHealthy(a, kinds, now);
    AllHealthyAt(a, kinds, now);
    hide HealthyStatus, AllHealthy;
    forall i | 0 <= i < |ms| ensures ms[i].condition.kind == kinds[i] && kinds[i] in kinds {}
    forall k | k in kinds ensures exists m | m in ms :: m.condition == Plain(k, HealthyStatus(a, k)) {
      var i :| 0 <= i < |kinds| && kinds[i] == k;
      assert ms[i] in ms;
    }
  }

  lemma {:induction false} AllHealthyAt(a: Aggregator, kinds: seq<string>, now: Instant)
    ensures var ms := AllHealthy(a, kinds, now);
            |ms| == |kinds| && forall i | 0 <= i < |ms| ::
                ms[i] == Mark(Plain(kinds[i], HealthyStatus(a, kinds[i])), now)
  {
    hide HealthyStatus;
    if kinds != [] {
      AllHealthyAt(a, kinds[1..], now);
    }
  }

  /**
   * Without the guard the phase can lie: on a fresh object, one action that
   * marks every dependent healthy and then fails still ends Ready.
   */
  lemma UnguardedProvisioningShowsReady(c: Config, generation: int, failure: Failure, clock: ApplyClock)
    returns (actions: seq<Action>)
    requires WellFormed(c.aggregator) && !Guarded(c.aggregator, c.provisioning) && !c.skipConditionCleanup
    ensures var p := Provision(c, [], generation, None, actions, clock);
            p.verdict == Broken(failure) && Happy(c, Finished(c, p.state, clock))
  {
    var a, now := c.aggregator, clock.provisioning;
    var kinds := Listing(a.dependents.Keys);
    assert forall k :: k in kinds <==> k in Elements(kinds);
    var ms := AllHealthy(a, kinds, now);
    AllHealthyMarks(a, kinds, now);
    actions := [Action(AsEvents(ms), Failed(failure))];
    var started := AfterNew(a, [], clock.creation).(active := Some({}));
    var mark := ProvisioningMark(c, Broken(failure), generation);
    SeededKeepsUnique(a, State([], None), [a.target] + kinds, clock.creation);
    hide AfterNew, AllHealthy, Marked, Kinds, Sound, Happy, Finished, UniqueKinds, Guarded;
    var t := MarkedThenFailed(c, started, ms, failure, mark, now);
    UnguardedMarkIsSound(c, Marked(a, started, ms), mark, ms, now);
    ReadyExactlyWhen(c, t, clock);
  }

  /** Where an action that only marks, and then fails, leaves the list. */
  lemma MarkedThenFailed(c: Config, s: State, ms: seq<Mark>, failure: Failure, mark: Condition, now: Instant)
    returns (t: State)
    requires WellFormed(c.aggregator) && Orderly(c.aggregator, ms) && s.active == Some({}) && UniqueKinds(s.conditions)
    ensures var a, actions := c.aggregator, [Action(AsEvents(ms), Failed(failure))];
            && RunActions(a, s, actions, 0) == Progress(Marked(a, s, ms), Some(failure), 0)
            && t == AfterSet(a, Marked(a, s, ms), mark, now)
            && Marked(a, s, ms).active == Some(Kinds(ms))
            && (forall m | m in ms :: !Changes(Marked(a, s, ms).conditions, m.condition))
            && UniqueKinds(t.conditions)
  {
    var a := c.aggregator;
    RunOfMarks(a, s, ms);
    MarksAreRead(a, s, ms);
    assert {} + Kinds(ms) == Kinds(ms);
    RunKeepsUnique(a, s, AsEvents(ms));
    t := AfterSet(a, Marked(a, s, ms), mark, now);
    StepKeepsUnique(a, Marked(a, s, ms), Event(Set(mark), now));
    hide Marked, Changes, UniqueKinds, Kinds;
  }

  lemma UnguardedMarkIsSound(c: Config, s: State, mark: Condition, ms: seq<Mark>, now: Instant)
    requires WellFormed(c.aggregator) && !Guarded(c.aggregator, c.provisioning)
    requires mark.kind == c.provisioning && mark.status == ConditionFalse
    requires s.active == Some(c.aggregator.dependents.Keys) && c.aggregator.dependents.Keys == Kinds(ms)
    requires forall m | m in ms :: !Changes(s.conditions, m.condition)
    requires forall k | k in c.aggregator.dependents ::
               exists m | m in ms :: m.condition == Plain(k, HealthyStatus(c.aggregator, k))
    requires UniqueKinds(AfterSet(c.aggregator, s, mark, now).conditions)
    ensures Sound(c.aggregator, AfterSet(c.aggregator, s, mark, now))
  {
    var a := c.aggregator;
    var t := AfterSet(a, s, mark, now);
    SetIsRead(s.conditions, mark, now);
    if mark.kind != a.target {
      AfterSetIsRead(a, s, mark, now);
    }
    forall x | x in t.conditions && x.kind in t.active.value && Considered(a, x) ensures Healthy(a, x) {
      FoundIfUnique(t.conditions, x);
      if x.kind in a.dependents && x.kind != mark.kind {
        var m :| m in ms && m.condition == Plain(x.kind, HealthyStatus(a, x.kind));
        assert Find(t.conditions, x.kind) == Find(s.conditions, x.kind);
      }
    }
  }

  lemma {:induction false} FoundIfUnique(cs: seq<Condition>, c: Condition)
    requires UniqueKinds(cs) && c in cs
    ensures Find(cs, c.kind) == Some(c)
  {
    if cs[0] != c {
      assert c in cs[1..];
      FoundIfUnique(cs[1..], c);
    }
  }
}
