/**
 * The framework's condition manager as a state machine over the condition list
 * and the set of types written since the last reset: the effect of each
 * operation, and the invariants of every run.
 */
module ManagerRuns {
  import opened Options
  import opened Ordering
  import opened Sorting
  import opened FrameworkConditions

  const REASON_NOT_SET := "ConditionNotSet"

  /** `active` is None until the first `Reset`. */
  datatype State = State(conditions: seq<Condition>, active: Option<set<string>>)

  // ----- the effect of each operation -----

  function Recomputed(a: Aggregator, cs: seq<Condition>, now: Instant): seq<Condition> {
    SetStatus(cs, Aggregated(a, cs), now)
  }

  function Activated(active: Option<set<string>>, kind: string): Option<set<string>> {
    if active.Some? then Some(active.value + {kind}) else None
  }

  function AfterSet(a: Aggregator, s: State, c: Condition, now: Instant): State {
    var written := SetStatus(s.conditions, c, now);
    State(if !Changes(s.conditions, c) || c.kind == a.target then written else Recomputed(a, written, now),
          Activated(s.active, c.kind))
  }

  function AfterClear(a: Aggregator, s: State, kind: string, now: Instant): State {
    var kept := RemoveStatus(s.conditions, kind);
    if |kept| == |s.conditions| then s else s.(conditions := Recomputed(a, kept, now))
  }

  function HealthyStatus(a: Aggregator, kind: string): Status {
    if PolarityFor(a, kind) == HealthyWhenFalse then ConditionFalse else ConditionTrue
  }

  function UnhealthyStatus(a: Aggregator, kind: string): Status {
    if PolarityFor(a, kind) == HealthyWhenFalse then ConditionTrue else ConditionFalse
  }

  /** What an unwritten dependent is set to: explicitly unhealthy under its polarity. */
  function Unset(a: Aggregator, kind: string): Condition {
    Plain(kind, UnhealthyStatus(a, kind))
    .(reason := REASON_NOT_SET, message := "condition " + kind + " was not set during reconciliation")
  }

  function MarkUnset(
      a: Aggregator, cs: seq<Condition>, kinds: seq<string>, active: set<string>, now: Instant): seq<Condition>
    decreases |kinds|
  {
    if kinds == [] then cs
    else
      var marked := if kinds[0] in active then cs else SetStatus(cs, Unset(a, kinds[0]), now);
      MarkUnset(a, marked, kinds[1..], active, now)
  }

  predicate AnyUnset(a: Aggregator, cs: seq<Condition>, kinds: seq<string>, active: set<string>, now: Instant)
    decreases |kinds|
  {
    && kinds != []
    && if kinds[0] in active then AnyUnset(a, cs, kinds[1..], active, now)
       else
         || Changes(cs, Unset(a, kinds[0]))
         || AnyUnset(a, SetStatus(cs, Unset(a, kinds[0]), now), kinds[1..], active, now)
  }

  function Survives(a: Aggregator, active: set<string>): Condition -> bool {
    (c: Condition) => c.kind == a.target || c.kind in a.dependents || c.kind in active
  }

  ghost function AfterCleanup(a: Aggregator, s: State, now: Instant): State {
    if s.active.None? then s
    else
      var kinds := Listing(a.dependents.Keys);
      var marked := MarkUnset(a, s.conditions, kinds, s.active.value, now);
      var kept := Filter(Survives(a, s.active.value), marked);
      if AnyUnset(a, s.conditions, kinds, s.active.value, now) || kept != marked
      then s.(conditions := Recomputed(a, kept, now))
      else s.(conditions := kept)
  }

  function AfterSort(a: Aggregator, s: State): State {
    s.(conditions := StableSort(Order(a), s.conditions))
  }

  /** Gives each missing kind an Unknown condition, in turn. */
  function Seeded(a: Aggregator, s: State, kinds: seq<string>, now: Instant): State
    decreases |kinds|
  {
    if kinds == [] then s
    else Seeded(a,
                if Has(s.conditions, kinds[0]) then s else AfterSet(a, s, Plain(kinds[0], ConditionUnknown), now),
                kinds[1..], now)
  }

  /** `NewManager`: seed the target, then the dependents in type order. */
  ghost function AfterNew(a: Aggregator, cs: seq<Condition>, now: Instant): State {
    Seeded(a, State(cs, None), [a.target] + Listing(a.dependents.Keys), now)
  }

  // ----- runs -----

  datatype Op =
    | Set(condition: Condition)
    | Clear(kind: string)
    | Recompute
    | Reset
    | Cleanup
    | Sort

  datatype Event = Event(op: Op, at: Instant)

  ghost function Step(a: Aggregator, s: State, e: Event): State {
    match e.op
    case Set(c) => AfterSet(a, s, c, e.at)
    case Clear(kind) => AfterClear(a, s, kind, e.at)
    case Recompute => s.(conditions := Recomputed(a, s.conditions, e.at))
    case Reset => s.(active := Some({}))
    case Cleanup => AfterCleanup(a, s, e.at)
    case Sort => AfterSort(a, s)
  }

  ghost function Run(a: Aggregator, s: State, es: seq<Event>): State
    decreases |es|
  {
    if es == [] then s else Run(a, Step(a, s, es[0]), es[1..])
  }

  /** The aggregator a manager compares with: without one, no type is a target or a dependent. */
  function Comparing(a: Option<Aggregator>): Aggregator {
    match a case Some(value) => value case None => Aggregator("", map[])
  }

  /** A manager without an aggregator writes, removes and sorts, and derives nothing. */
  function BareStep(s: State, e: Event): State {
    match e.op
    case Set(c) => State(SetStatus(s.conditions, c, e.at), Activated(s.active, c.kind))
    case Clear(kind) => s.(conditions := RemoveStatus(s.conditions, kind))
    case Recompute => s
    case Reset => s.(active := Some({}))
    case Cleanup => s
    case Sort => AfterSort(Comparing(None), s)
  }

  function BareRun(s: State, es: seq<Event>): State
    decreases |es|
  {
    if es == [] then s else BareRun(BareStep(s, es[0]), es[1..])
  }

  /** It sorts by type alone. */
  lemma BareSortIsByType(x: Condition, y: Condition)
    ensures Order(Comparing(None))(x, y) <==> Leq(x.kind, y.kind)
  {
    OrderIsTotal(Comparing(None));
    StringOrderIsTotal();
    assert StringOrder()(x.kind, y.kind) || StringOrder()(y.kind, x.kind);
    assert Leq("", x.kind) && Leq("", y.kind);
    if y.kind == "" && Leq(x.kind, y.kind) {
      assert x.kind == y.kind;
    }
  }

  predicate SetsTarget(a: Aggregator, e: Event) {
    e.op.Set? && e.op.condition.kind == a.target
  }

  /** The target is present and is what the aggregate of the list says. */
  ghost predicate InSync(a: Aggregator, cs: seq<Condition>) {
    Has(cs, a.target) && Same(Find(cs, a.target).value, Aggregated(a, cs))
  }

  lemma RecomputeSyncs(a: Aggregator, cs: seq<Condition>, now: Instant)
    ensures InSync(a, Recomputed(a, cs, now))
    ensures Aggregated(a, Recomputed(a, cs, now)) == Aggregated(a, cs)
  {
    SetIsRead(cs, Aggregated(a, cs), now);
    AggregateIgnoresTarget(a, cs, Aggregated(a, cs), now);
  }

  lemma RecomputeOfSynced(a: Aggregator, cs: seq<Condition>, now: Instant)
    requires InSync(a, cs)
    ensures Recomputed(a, cs, now) == cs
  {
    UnchangedWrite(cs, Aggregated(a, cs), now);
  }

  /** A filter drops something exactly when the list gets shorter. */
  lemma {:induction false} FilterShorter<T>(p: T -> bool, s: seq<T>)
    ensures |Filter(p, s)| <= |s|
    ensures |Filter(p, s)| == |s| ==> Filter(p, s) == s
  {
    if s != [] {
      FilterShorter(p, s[1..]);
      assert s == [s[0]] + s[1..];
    }
  }

  lemma {:induction false} NothingUnset(
      a: Aggregator, cs: seq<Condition>, kinds: seq<string>, active: set<string>, now: Instant)
    requires !AnyUnset(a, cs, kinds, active, now)
    ensures MarkUnset(a, cs, kinds, active, now) == cs
    decreases |kinds|
  {
    if kinds != [] {
      if kinds[0] !in active {
        UnchangedWrite(cs, Unset(a, kinds[0]), now);
      }
      NothingUnset(a, cs, kinds[1..], active, now);
    }
  }

  /** Every operation but a direct write of the target keeps the target in step. */
  lemma StepKeepsSync(a: Aggregator, s: State, e: Event)
    requires InSync(a, s.conditions) && !SetsTarget(a, e)
    ensures InSync(a, Step(a, s, e).conditions)
  {
    match e.op
    case Set(c) =>
      if Changes(s.conditions, c) {
        RecomputeSyncs(a, SetStatus(s.conditions, c, e.at), e.at);
      } else {
        UnchangedWrite(s.conditions, c, e.at);
      }
    case Clear(kind) =>
      RecomputeSyncs(a, RemoveStatus(s.conditions, kind), e.at);
    case Recompute =>
      RecomputeSyncs(a, s.conditions, e.at);
    case Reset =>
    case Cleanup =>
      if s.active.Some? {
        var kinds := Listing(a.dependents.Keys);
        var marked := MarkUnset(a, s.conditions, kinds, s.active.value, e.at);
        RecomputeSyncs(a, Filter(Survives(a, s.active.value), marked), e.at);
        if !AnyUnset(a, s.conditions, kinds, s.active.value, e.at) {
          NothingUnset(a, s.conditions, kinds, s.active.value, e.at);
        }
      }
    case Sort =>
      SortKeepsFind(a, s.conditions, a.target);
      SortKeepsAggregate(a, s.conditions);
  }

  lemma {:induction false} MarkUnsetKeepsUnique(
      a: Aggregator, cs: seq<Condition>, kinds: seq<string>, active: set<string>, now: Instant)
    requires UniqueKinds(cs)
    ensures UniqueKinds(MarkUnset(a, cs, kinds, active, now))
    decreases |kinds|
  {
    if kinds != [] {
      UpsertKeepsUnique(cs, Stamped(Unset(a, kinds[0]), now));
      var marked := if kinds[0] in active then cs else SetStatus(cs, Unset(a, kinds[0]), now);
      MarkUnsetKeepsUnique(a, marked, kinds[1..], active, now);
    }
  }

  lemma RecomputeKeepsUnique(a: Aggregator, cs: seq<Condition>, now: Instant)
    requires UniqueKinds(cs)
    ensures UniqueKinds(Recomputed(a, cs, now))
  {
    UpsertKeepsUnique(cs, Stamped(Aggregated(a, cs), now));
  }

  lemma StepKeepsUnique(a: Aggregator, s: State, e: Event)
    requires UniqueKinds(s.conditions)
    ensures UniqueKinds(Step(a, s, e).conditions)
  {
    match e.op
    case Set(c) =>
      UpsertKeepsUnique(s.conditions, Stamped(c, e.at));
      RecomputeKeepsUnique(a, SetStatus(s.conditions, c, e.at), e.at);
    case Clear(kind) =>
      FilterKeepsUnique(NotOfKind(kind), s.conditions);
      RecomputeKeepsUnique(a, RemoveStatus(s.conditions, kind), e.at);
    case Recompute =>
      RecomputeKeepsUnique(a, s.conditions, e.at);
    case Reset =>
    case Cleanup =>
      if s.active.Some? {
        var kinds := Listing(a.dependents.Keys);
        MarkUnsetKeepsUnique(a, s.conditions, kinds, s.active.value, e.at);
        var marked := MarkUnset(a, s.conditions, kinds, s.active.value, e.at);
        FilterKeepsUnique(Survives(a, s.active.value), marked);
        RecomputeKeepsUnique(a, Filter(Survives(a, s.active.value), marked), e.at);
      }
    case Sort =>
      SortKeepsUnique(Order(a), s.conditions);
  }

  lemma {:induction false} RunKeepsSync(a: Aggregator, s: State, es: seq<Event>)
    requires InSync(a, s.conditions) && forall e | e in es :: !SetsTarget(a, e)
    ensures InSync(a, Run(a, s, es).conditions)
    decreases |es|
  {
    if es != [] {
      StepKeepsSync(a, s, es[0]);
      RunKeepsSync(a, Step(a, s, es[0]), es[1..]);
    }
  }

  lemma {:induction false} RunKeepsUnique(a: Aggregator, s: State, es: seq<Event>)
    requires UniqueKinds(s.conditions)
    ensures UniqueKinds(Run(a, s, es).conditions)
    decreases |es|
  {
    if es != [] {
      StepKeepsUnique(a, s, es[0]);
      RunKeepsUnique(a, Step(a, s, es[0]), es[1..]);
    }
  }

  lemma {:induction false} SeededKeepsUnique(a: Aggregator, s: State, kinds: seq<string>, now: Instant)
    requires UniqueKinds(s.conditions)
    ensures UniqueKinds(Seeded(a, s, kinds, now).conditions)
    decreases |kinds|
  {
    if kinds != [] {
      var e := Event(Set(Plain(kinds[0], ConditionUnknown)), now);
      StepKeepsUnique(a, s, e);
      SeededKeepsUnique(a, if Has(s.conditions, kinds[0]) then s else Step(a, s, e), kinds[1..], now);
    }
  }

  /** Seeding dependents syncs the target as soon as one of them was missing, and otherwise does nothing. */
  lemma {:induction false} SeedingDependents(a: Aggregator, s: State, kinds: seq<string>, now: Instant)
    requires a.target !in kinds
    ensures var t := Seeded(a, s, kinds, now);
            if exists k | k in kinds :: !Has(s.conditions, k) then InSync(a, t.conditions)
            else t == s
    ensures InSync(a, s.conditions) ==> InSync(a, Seeded(a, s, kinds, now).conditions)
    decreases |kinds|
  {
    if kinds != [] {
      var c := Plain(kinds[0], ConditionUnknown);
      if Has(s.conditions, kinds[0]) {
        SeedingDependents(a, s, kinds[1..], now);
        assert forall k | k in kinds :: k == kinds[0] || k in kinds[1..];
      } else {
        RecomputeSyncs(a, SetStatus(s.conditions, c, now), now);
        SeedingDependents(a, AfterSet(a, s, c, now), kinds[1..], now);
      }
    }
  }

  function WithTarget(a: Aggregator, cs: seq<Condition>, now: Instant): seq<Condition> {
    if Has(cs, a.target) then cs else SetStatus(cs, Plain(a.target, ConditionUnknown), now)
  }

  lemma SeededFirst(a: Aggregator, s: State, kind: string, kinds: seq<string>, now: Instant)
    ensures Seeded(a, s, [kind] + kinds, now) ==
            Seeded(a, if Has(s.conditions, kind) then s
                else AfterSet(a, s, Plain(kind, ConditionUnknown), now), kinds, now)
  {
    assert ([kind] + kinds)[1..] == kinds;
  }

  /**
   * `NewManager` leaves the target in step exactly when some dependent was
   * missing from the list it was given, or the list (with a missing target
   * seeded as Unknown) was in step already.
   */
  lemma NewManagerSyncsExactlyWhen(a: Aggregator, cs: seq<Condition>, now: Instant)
    requires WellFormed(a)
    ensures InSync(a, AfterNew(a, cs, now).conditions) <==>
            (exists d | d in a.dependents :: !Has(cs, d)) || InSync(a, WithTarget(a, cs, now))
  {
    var kinds := Listing(a.dependents.Keys);
    var s := State(WithTarget(a, cs, now), None);
    SeededFirst(a, State(cs, None), a.target, kinds, now);
    assert forall k :: k in kinds <==> k in Elements(kinds);
    SeedingDependents(a, s, kinds, now);
    SetIsRead(cs, Plain(a.target, ConditionUnknown), now);
    assert forall k | k in kinds :: Has(s.conditions, k) <==> Has(cs, k);
  }

  /**
   * Run invariant: from a new manager on an empty list, with at least one
   * dependent, no sequence of operations that leaves the target alone ever
   * shows duplicate types or a target other than the aggregate.
   */
  lemma {:induction false} TargetMirrorsAggregate(a: Aggregator, now: Instant, es: seq<Event>)
    requires WellFormed(a) && a.dependents != map[]
    requires forall e | e in es :: !SetsTarget(a, e)
    ensures var cs := Run(a, AfterNew(a, [], now), es).conditions;
            UniqueKinds(cs) && InSync(a, cs)
  {
    NewManagerSyncsExactlyWhen(a, [], now);
    assert exists d | d in a.dependents :: !Has([], d) by {
      assert a.dependents.Keys != {};
      var d :| d in a.dependents.Keys;
      assert d in a.dependents && !Has([], d);
    }
    RunKeepsSync(a, AfterNew(a, [], now), es);
    SeededKeepsUnique(a, State([], None), [a.target] + Listing(a.dependents.Keys), now);
    RunKeepsUnique(a, AfterNew(a, [], now), es);
  }

  /** Without dependents the new manager starts out of step: Unknown where the aggregate is True. */
  lemma NoDependentsStartsOutOfStep(a: Aggregator, now: Instant)
    requires WellFormed(a) && |a.dependents| == 0
    ensures !InSync(a, AfterNew(a, [], now).conditions)
  {
    NewManagerSyncsExactlyWhen(a, [], now);
    var cs := WithTarget(a, [], now);
    assert cs == [Stamped(Plain(a.target, ConditionUnknown), now)];
    AggregateTrueMeansAllHealthy(a, cs);
    SetIsRead([], Plain(a.target, ConditionUnknown), now);
  }

  /** A write, and later a recomputation. */
  function WrittenThenRecomputed(c: Condition, t: Instant, u: Instant): seq<Event> {
    [Event(Set(c), t), Event(Recompute, u)]
  }

  /** A direct write of the target lasts until the next recomputation and no longer. */
  lemma TargetOverrideIsTemporary(a: Aggregator, s: State, c: Condition, t: Instant, u: Instant)
    requires c.kind == a.target
    ensures InSync(a, Run(a, s, WrittenThenRecomputed(c, t, u)).conditions)
    ensures Aggregated(a, Run(a, s, WrittenThenRecomputed(c, t, u)).conditions) == Aggregated(a, s.conditions)
  {
    var es := WrittenThenRecomputed(c, t, u);
    var mid := Step(a, s, es[0]);
    assert es[1..] == [es[1]] && es[1..][1..] == [];
    assert Run(a, s, es) == Run(a, mid, es[1..]) == Run(a, Step(a, mid, es[1]), []);
    AggregateIgnoresTarget(a, s.conditions, c, t);
    RecomputeSyncs(a, mid.conditions, u);
  }
}
