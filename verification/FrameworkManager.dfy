/**
 * The framework's condition manager as the class that updates an object's
 * status in place, each method proved to have the effect `ManagerRuns` gives it.
 */
module FrameworkManager {
  import opened Options
  import opened Ordering
  import opened Sorting
  import opened FrameworkConditions
  import opened ManagerRuns

  /** The status block of a platform object, through which conditions are read and written. */
  class StatusBlock {
    var phase: string
    var observedGeneration: int
    var conditions: seq<Condition>

    constructor (conditions: seq<Condition>)
      ensures this.conditions == conditions && phase == "" && observedGeneration == 0
    {
      this.conditions := conditions;
      phase := "";
      observedGeneration := 0;
    }
  }

  lemma {:induction false} UpsertAt(cs: seq<Condition>, n: Condition, i: nat)
    requires i < |cs| && cs[i].kind == n.kind && forall j | 0 <= j < i :: cs[j].kind != n.kind
    ensures Upsert(cs, n) == cs[i := Updated(cs[i], n)]
    ensures Find(cs, n.kind) == Some(cs[i])
  {
    if i > 0 {
      UpsertAt(cs[1..], n, i - 1);
      assert cs == [cs[0]] + cs[1..];
    }
  }

  lemma {:induction false} UpsertAppends(cs: seq<Condition>, n: Condition)
    requires forall c | c in cs :: c.kind != n.kind
    ensures Upsert(cs, n) == cs + [n]
    ensures Find(cs, n.kind) == None
  {
    if cs != [] {
      UpsertAppends(cs[1..], n);
    }
  }

  method IndexOfKind(cs: seq<Condition>, kind: string) returns (idx: int)
    ensures -1 <= idx < |cs|
    ensures idx == -1 ==> forall c | c in cs :: c.kind != kind
    ensures idx >= 0 ==> cs[idx].kind == kind && forall j | 0 <= j < idx :: cs[j].kind != kind
  {
    for i := 0 to |cs|
      invariant forall j | 0 <= j < i :: cs[j].kind != kind
    {
      if cs[i].kind == kind {
        return i;
      }
    }
    return -1;
  }

  method SetStatusCondition(status: StatusBlock, newCondition: Condition, now: Instant) returns (changed: bool)
    modifies status`conditions
    ensures status.conditions == SetStatus(old(status.conditions), newCondition, now)
    ensures changed <==> Changes(old(status.conditions), newCondition)
  {
    var conditions := status.conditions;
    var written := newCondition.(lastHeartbeatTime := None);
    if written.lastTransitionTime == ZERO_TIME {
      written := written.(lastTransitionTime := now);
    }
    var idx := IndexOfKind(conditions, written.kind);
    if idx == -1 {
      UpsertAppends(conditions, written);
      status.conditions := conditions + [written];
      return true;
    }
    UpsertAt(conditions, written, idx);
    if Same(conditions[idx], written) {
      return false;
    }
    var oldTransitionTime := conditions[idx].lastTransitionTime;
    var updateTransitionTime := conditions[idx].status != written.status;
    conditions := conditions[idx := written];
    if !updateTransitionTime {
      conditions := conditions[idx := written.(lastTransitionTime := oldTransitionTime)];
    }
    status.conditions := conditions;
    return true;
  }

  method RemoveStatusCondition(status: StatusBlock, kind: string) returns (removed: bool)
    modifies status`conditions
    ensures status.conditions == RemoveStatus(old(status.conditions), kind)
    ensures removed <==> |status.conditions| != |old(status.conditions)|
  {
    var conditions := status.conditions;
    if |conditions| == 0 {
      return false;
    }
    conditions := Filter(NotOfKind(kind), conditions);
    removed := |conditions| != |status.conditions|;
    FilterShorter(NotOfKind(kind), status.conditions);
    if removed {
      status.conditions := conditions;
    }
  }

  /** `IsStatusConditionTrue` asks whether any entry of the type is True, not only the first. */
  predicate AnyTrue(cs: seq<Condition>, kind: string) {
    exists c | c in cs :: c.kind == kind && c.status == ConditionTrue
  }

  function NotAmong(kinds: set<string>): Condition -> bool {
    (c: Condition) => c.kind !in kinds
  }

  class Manager {
    const aggregator: Option<Aggregator>
    const accessor: StatusBlock
    var activeTypes: Option<set<string>>

    function Now(): State
      reads this, accessor
    {
      State(accessor.conditions, activeTypes)
    }

    constructor (accessor: StatusBlock, aggregator: Option<Aggregator>, now: Instant)
      modifies accessor`conditions
      ensures this.accessor == accessor && this.aggregator == aggregator
      ensures aggregator.Some? ==> Now() == AfterNew(aggregator.value, old(accessor.conditions), now)
      ensures aggregator.None? ==> Now() == State(old(accessor.conditions), None)
    {
      this.accessor := accessor;
      this.aggregator := aggregator;
      activeTypes := None;
      new;
      InitializeConditions(now);
    }

    method InitializeConditions(now: Instant)
      requires activeTypes.None?
      modifies this`activeTypes, accessor`conditions
      ensures aggregator.Some? ==> Now() == AfterNew(aggregator.value, old(accessor.conditions), now)
      ensures aggregator.None? ==> Now() == old(Now())
    {
      if aggregator.None? {
        return;
      }
      var a := aggregator.value;
      var kinds := SortedKeys(a.dependents.Keys);
      ListingUnique(a.dependents.Keys, kinds, Listing(a.dependents.Keys));
      SeededFirst(a, Now(), a.target, kinds, now);
      if !Has(accessor.conditions, a.target) {
        SetCondition(Plain(a.target, ConditionUnknown), now);
      }
      for i := 0 to |kinds|
        invariant Seeded(a, Now(), kinds[i..], now) == AfterNew(a, old(accessor.conditions), now)
      {
        assert kinds[i..][0] == kinds[i] && kinds[i..][1..] == kinds[i + 1..];
        if !Has(accessor.conditions, kinds[i]) {
          SetCondition(Plain(kinds[i], ConditionUnknown), now);
        }
      }
    }

    method IsHappy() returns (happy: bool)
      ensures happy <==> aggregator.Some? && AnyTrue(accessor.conditions, aggregator.value.target)
    {
      happy := aggregator.Some? && AnyTrue(accessor.conditions, aggregator.value.target);
    }

    method SetCondition(condition: Condition, now: Instant)
      modifies this`activeTypes, accessor`conditions
      ensures aggregator.Some? ==> Now() == AfterSet(aggregator.value, old(Now()), condition, now)
      ensures aggregator.None? ==>
                Now() == State(SetStatus(old(accessor.conditions), condition, now),
                               Activated(old(activeTypes), condition.kind))
    {
      if activeTypes.Some? {
        activeTypes := Some(activeTypes.value + {condition.kind});
      }
      var changed := SetStatusCondition(accessor, condition, now);
      if !changed {
        return;
      }
      if aggregator.None? || condition.kind == aggregator.value.target {
        return;
      }
      RecomputeHappiness(now);
    }

    method ClearCondition(kind: string, now: Instant)
      modifies accessor`conditions
      ensures aggregator.Some? ==> Now() == AfterClear(aggregator.value, old(Now()), kind, now)
      ensures aggregator.None? ==> Now() == old(Now()).(conditions := RemoveStatus(old(accessor.conditions), kind))
    {
      FilterShorter(NotOfKind(kind), accessor.conditions);
      var removed := RemoveStatusCondition(accessor, kind);
      if !removed {
        return;
      }
      RecomputeHappiness(now);
    }

    /** `details` carries what the options fill in. */
    method MarkHealthy(details: Condition, now: Instant)
      modifies this`activeTypes, accessor`conditions
      ensures aggregator.Some? ==>
                var c := details.(status := HealthyStatus(aggregator.value, details.kind));
                Now() == AfterSet(aggregator.value, old(Now()), c, now)
      ensures aggregator.None? ==>
                Now() == State(SetStatus(old(accessor.conditions), details.(status := ConditionTrue), now),
                               Activated(old(activeTypes), details.kind))
    {
      var polarity := if aggregator.Some? then PolarityFor(aggregator.value, details.kind) else HealthyWhenTrue;
      var status := if polarity == HealthyWhenFalse then ConditionFalse else ConditionTrue;
      SetCondition(details.(status := status), now);
    }

    method MarkUnhealthy(details: Condition, now: Instant)
      modifies this`activeTypes, accessor`conditions
      ensures aggregator.Some? ==>
                var c := details.(status := UnhealthyStatus(aggregator.value, details.kind));
                Now() == AfterSet(aggregator.value, old(Now()), c, now)
      ensures aggregator.None? ==>
                Now() == State(SetStatus(old(accessor.conditions), details.(status := ConditionFalse), now),
                               Activated(old(activeTypes), details.kind))
    {
      var polarity := if aggregator.Some? then PolarityFor(aggregator.value, details.kind) else HealthyWhenTrue;
      var status := if polarity == HealthyWhenFalse then ConditionTrue else ConditionFalse;
      SetCondition(details.(status := status), now);
    }

    method RecomputeHappiness(now: Instant)
      modifies accessor`conditions
      ensures aggregator.Some? ==> accessor.conditions == Recomputed(aggregator.value, old(accessor.conditions), now)
      ensures aggregator.None? ==> accessor.conditions == old(accessor.conditions)
    {
      if aggregator.None? {
        return;
      }
      var selected := FirstUnhealthyCondition(aggregator.value, accessor.conditions);
      var condition := Plain(aggregator.value.target, ConditionTrue);
      if selected.Some? {
        var status := ConditionFalse;
        if selected.value.status == ConditionUnknown {
          status := ConditionUnknown;
        }
        condition := Plain(aggregator.value.target, status)
                     .(reason := selected.value.reason, message := selected.value.message);
      }
      var _ := SetStatusCondition(accessor, condition, now);
    }

    method Reset()
      modifies this`activeTypes
      ensures activeTypes == Some({})
    {
      activeTypes := Some({});
    }

    method CleanupStaleConditions(now: Instant)
      modifies accessor`conditions
      ensures aggregator.Some? ==> Now() == AfterCleanup(aggregator.value, old(Now()), now)
      ensures aggregator.None? ==> Now() == old(Now())
    {
      if activeTypes.None? || aggregator.None? {
        return;
      }
      var a, active := aggregator.value, activeTypes.value;
      var kinds := SortedKeys(a.dependents.Keys);
      ListingUnique(a.dependents.Keys, kinds, Listing(a.dependents.Keys));
      var changed := MarkUnsetDependents(a, kinds, active, now);

      ghost var marked := accessor.conditions;
      var toRemove: seq<string> := [];
      var clone := accessor.conditions;
      for i := 0 to |clone|
        invariant forall k :: k in toRemove <==> exists c | c in clone[..i] :: c.kind == k && !Survives(a, active)(c)
      {
        assert clone[..i + 1] == clone[..i] + [clone[i]];
        var kind := clone[i].kind;
        if kind == a.target {
          continue;
        }
        if kind in a.dependents {
          continue;
        }
        if kind in active {
          continue;
        }
        toRemove := toRemove + [kind];
      }
      assert clone[..|clone|] == marked;
      RemoveKinds(toRemove);
      FilterAgree(NotAmong(Elements(toRemove)), Survives(a, active), marked);
      if toRemove == [] {
        FilterAll(Survives(a, active), marked);
      } else {
        assert toRemove[0] in toRemove;
        assert exists c | c in marked :: c.kind == toRemove[0] && !Survives(a, active)(c);
        FilterMembers(Survives(a, active), marked);
      }
      if |toRemove| > 0 || changed {
        RecomputeHappiness(now);
      }
    }

    /** The first loop of the cleanup: unwritten dependents become explicitly unhealthy. */
    method MarkUnsetDependents(a: Aggregator, kinds: seq<string>, active: set<string>, now: Instant)
      returns (changed: bool)
      modifies accessor`conditions
      ensures accessor.conditions == MarkUnset(a, old(accessor.conditions), kinds, active, now)
      ensures changed <==> AnyUnset(a, old(accessor.conditions), kinds, active, now)
    {
      changed := false;
      for i := 0 to |kinds|
        invariant MarkUnset(a, accessor.conditions, kinds[i..], active, now)
               == MarkUnset(a, old(accessor.conditions), kinds, active, now)
        invariant (changed || AnyUnset(a, accessor.conditions, kinds[i..], active, now))
               == AnyUnset(a, old(accessor.conditions), kinds, active, now)
      {
        assert kinds[i..][0] == kinds[i] && kinds[i..][1..] == kinds[i + 1..];
        if kinds[i] in active {
          continue;
        }
        var status := ConditionFalse;
        if PolarityFor(a, kinds[i]) == HealthyWhenFalse {
          status := ConditionTrue;
        }
        var written := SetStatusCondition(
          accessor,
          Condition(kinds[i], status, 0, ZERO_TIME, REASON_NOT_SET,
                    "condition " + kinds[i] + " was not set during reconciliation", SeverityError, None),
          now);
        if written {
          changed := true;
        }
      }
    }

    /** The last loop of the cleanup: drop every entry of each collected type. */
    method RemoveKinds(toRemove: seq<string>)
      modifies accessor`conditions
      ensures accessor.conditions == Filter(NotAmong(Elements(toRemove)), old(accessor.conditions))
    {
      ghost var cs := accessor.conditions;
      FilterAll(NotAmong({}), cs);
      assert Elements(toRemove[..0]) == {};
      for i := 0 to |toRemove|
        invariant accessor.conditions == Filter(NotAmong(Elements(toRemove[..i])), cs)
      {
        assert toRemove[..i + 1] == toRemove[..i] + [toRemove[i]];
        assert Elements(toRemove[..i + 1]) == Elements(toRemove[..i]) + {toRemove[i]};
        FilterTwice(NotOfKind(toRemove[i]), NotAmong(Elements(toRemove[..i])), NotAmong(Elements(toRemove[..i + 1])),
            cs);
        var _ := RemoveStatusCondition(accessor, toRemove[i]);
      }
      assert toRemove[..|toRemove|] == toRemove;
    }

    method Sort()
      modifies accessor`conditions
      ensures Now() == AfterSort(Comparing(aggregator), old(Now()))
    {
      var conditions := accessor.conditions;
      if |conditions| <= 1 {
        SortOfSorted(Order(Comparing(aggregator)), conditions);
        return;
      }
      accessor.conditions := StableSort(Order(Comparing(aggregator)), conditions);
    }

    /** Performs one operation of a run. */
    method Perform(e: Event)
      modifies this`activeTypes, accessor`conditions
      ensures aggregator.Some? ==> Now() == Step(aggregator.value, old(Now()), e)
      ensures aggregator.None? ==> Now() == BareStep(old(Now()), e)
    {
      match e.op
      case Set(c) => SetCondition(c, e.at);
      case Clear(kind) => ClearCondition(kind, e.at);
      case Recompute => RecomputeHappiness(e.at);
      case Reset => Reset();
      case Cleanup => CleanupStaleConditions(e.at);
      case Sort => Sort();
    }

    method PerformAll(es: seq<Event>)
      modifies this`activeTypes, accessor`conditions
      ensures aggregator.Some? ==> Now() == Run(aggregator.value, old(Now()), es)
      ensures aggregator.None? ==> Now() == BareRun(old(Now()), es)
    {
      for i := 0 to |es|
        invariant aggregator.Some? ==> Run(aggregator.value, Now(), es[i..]) == Run(aggregator.value, old(Now()), es)
        invariant aggregator.None? ==> BareRun(Now(), es[i..]) == BareRun(old(Now()), es)
      {
        assert es[i..][0] == es[i] && es[i..][1..] == es[i + 1..];
        hide Step, BareStep;
        Perform(es[i]);
      }
    }
  }
}
