/**
 * A reconcile cycle over the condition list: a fresh manager, marks, cleanup,
 * recomputation and sort. Repeated with the same marks it changes nothing.
 */
module ReconcileCycles {
  import opened Options
  import opened Ordering
  import opened Sorting
  import opened FrameworkConditions
  import opened ManagerRuns

  datatype Mark = Mark(condition: Condition, at: Instant)

  function Marked(a: Aggregator, s: State, ms: seq<Mark>): State
    decreases |ms|
  {
    if ms == [] then s else Marked(a, AfterSet(a, s, ms[0].condition, ms[0].at), ms[1..])
  }

  function AsEvents(ms: seq<Mark>): seq<Event> {
    if ms == [] then [] else [Event(Set(ms[0].condition), ms[0].at)] + AsEvents(ms[1..])
  }

  lemma {:induction false} RunOfMarks(a: Aggregator, s: State, ms: seq<Mark>)
    ensures Run(a, s, AsEvents(ms)) == Marked(a, s, ms)
    decreases |ms|
  {
    if ms != [] {
      var e := Event(Set(ms[0].condition), ms[0].at);
      assert AsEvents(ms)[1..] == AsEvents(ms[1..]);
      RunOfMarks(a, Step(a, s, e), ms[1..]);
    }
  }

  function Kinds(ms: seq<Mark>): set<string> {
    set m | m in ms :: m.condition.kind
  }

  /** Each type is marked at most once, and the target never. */
  ghost predicate Orderly(a: Aggregator, ms: seq<Mark>) {
    && (forall i, j | 0 <= i < j < |ms| :: ms[i].condition.kind != ms[j].condition.kind)
    && (forall m | m in ms :: m.condition.kind != a.target)
  }

  predicate SameMarks(ms: seq<Mark>, ns: seq<Mark>) {
    |ms| == |ns| && forall i | 0 <= i < |ms| :: ms[i].condition == ns[i].condition
  }

  datatype Clock = Clock(creation: Instant, cleanup: Instant, recompute: Instant)

  /** A fresh manager, Reset, the marks, optional cleanup, recompute, sort. */
  ghost function Cycle(a: Aggregator, cs: seq<Condition>, ms: seq<Mark>, cleanup: bool, clock: Clock): seq<Condition> {
    var started := AfterNew(a, cs, clock.creation).(active := Some({}));
    var marked := Marked(a, started, ms);
    var cleaned := if cleanup then AfterCleanup(a, marked, clock.cleanup) else marked;
    StableSort(Order(a), Recomputed(a, cleaned.conditions, clock.recompute))
  }

  /** What a finished cycle leaves behind, and what makes the next one with the same marks a no-op. */
  ghost predicate Settled(a: Aggregator, cs: seq<Condition>, ms: seq<Mark>, cleanup: bool) {
    && InSync(a, cs)
    && (forall d | d in a.dependents :: Has(cs, d))
    && (forall m | m in ms :: !Changes(cs, m.condition))
    && (cleanup ==> forall d | d in a.dependents && d !in Kinds(ms) :: !Changes(cs, Unset(a, d)))
    && (cleanup ==> forall c | c in cs :: Survives(a, Kinds(ms))(c))
  }

  lemma KindsOfCons(ms: seq<Mark>)
    requires ms != []
    ensures Kinds(ms) == {ms[0].condition.kind} + Kinds(ms[1..])
  {
    assert ms == [ms[0]] + ms[1..];
  }

  lemma {:induction false} MarksOfSettled(a: Aggregator, s: State, ms: seq<Mark>)
    requires s.active.Some? && forall m | m in ms :: !Changes(s.conditions, m.condition)
    ensures Marked(a, s, ms) == State(s.conditions, Some(s.active.value + Kinds(ms)))
    decreases |ms|
  {
    if ms != [] {
      var c, rest := ms[0].condition, ms[1..];
      assert ms[0] in ms && forall m | m in rest :: m in ms;
      UnchangedWrite(s.conditions, c, ms[0].at);
      var s' := AfterSet(a, s, c, ms[0].at);
      assert s' == State(s.conditions, Some(s.active.value + {c.kind}));
      MarksOfSettled(a, s', rest);
      KindsOfCons(ms);
      assert s.active.value + {c.kind} + Kinds(rest) == s.active.value + Kinds(ms);
    } else {
      assert s.active.value + Kinds(ms) == s.active.value;
    }
  }

  lemma {:induction false} CleanupOfSettled(
      a: Aggregator, cs: seq<Condition>, kinds: seq<string>, active: set<string>, now: Instant)
    requires forall k | k in kinds && k !in active :: !Changes(cs, Unset(a, k))
    ensures !AnyUnset(a, cs, kinds, active, now)
    decreases |kinds|
  {
    if kinds != [] {
      if kinds[0] !in active {
        UnchangedWrite(cs, Unset(a, kinds[0]), now);
      }
      CleanupOfSettled(a, cs, kinds[1..], active, now);
    }
  }

  lemma CycleOfSettled(a: Aggregator, cs: seq<Condition>, ms: seq<Mark>, cleanup: bool, clock: Clock)
    requires WellFormed(a) && Settled(a, cs, ms, cleanup) && Sorted(Order(a), cs)
    ensures Cycle(a, cs, ms, cleanup, clock) == cs
  {
    var kinds := Listing(a.dependents.Keys);
    assert forall k :: k in kinds <==> k in Elements(kinds);
    SeededFirst(a, State(cs, None), a.target, kinds, clock.creation);
    SeedingDependents(a, State(cs, None), kinds, clock.creation);
    MarksOfSettled(a, State(cs, Some({})), ms);
    assert {} + Kinds(ms) == Kinds(ms);
    if cleanup {
      CleanupOfSettled(a, cs, kinds, Kinds(ms), clock.cleanup);
      NothingUnset(a, cs, kinds, Kinds(ms), clock.cleanup);
      FilterAll(Survives(a, Kinds(ms)), cs);
    }
    RecomputeOfSynced(a, cs, clock.recompute);
    SortOfSorted(Order(a), cs);
  }

  /** A write is seen by its own kind and, through the recomputation, by the target alone. */
  lemma AfterSetIsRead(a: Aggregator, s: State, c: Condition, now: Instant)
    requires c.kind != a.target
    ensures !Changes(AfterSet(a, s, c, now).conditions, c)
    ensures forall k | k != c.kind && k != a.target ::
              Find(AfterSet(a, s, c, now).conditions, k) == Find(s.conditions, k)
    ensures Has(s.conditions, a.target) ==> Has(AfterSet(a, s, c, now).conditions, a.target)
  {
    SetIsRead(s.conditions, c, now);
    var written := SetStatus(s.conditions, c, now);
    SetIsRead(written, Aggregated(a, written), now);
  }

  lemma {:induction false} MarksAreRead(a: Aggregator, s: State, ms: seq<Mark>)
    requires Orderly(a, ms) && s.active.Some?
    ensures var t := Marked(a, s, ms);
            && t.active == Some(s.active.value + Kinds(ms))
            && (forall m | m in ms :: !Changes(t.conditions, m.condition))
            && (forall k | k !in Kinds(ms) && k != a.target :: Find(t.conditions, k) == Find(s.conditions, k))
    decreases |ms|
  {
    if ms != [] {
      var c, rest := ms[0].condition, ms[1..];
      var s' := AfterSet(a, s, c, ms[0].at);
      AfterSetIsRead(a, s, c, ms[0].at);
      MarksAreRead(a, s', rest);
      KindsOfCons(ms);
      assert s.active.value + {c.kind} + Kinds(rest) == s.active.value + Kinds(ms);
      assert c.kind !in Kinds(rest);
      assert forall m | m in ms :: m == ms[0] || m in rest;
    } else {
      assert s.active.value + Kinds(ms) == s.active.value;
    }
  }

  lemma {:induction false} MarkUnsetIsRead(
      a: Aggregator, cs: seq<Condition>, kinds: seq<string>, active: set<string>, now: Instant)
    requires Distinct(kinds)
    ensures var t := MarkUnset(a, cs, kinds, active, now);
            && (forall k | k in kinds && k !in active :: !Changes(t, Unset(a, k)))
            && (forall k | k !in kinds || k in active :: Find(t, k) == Find(cs, k))
    decreases |kinds|
  {
    if kinds != [] {
      var k, rest := kinds[0], kinds[1..];
      assert k !in rest && forall x :: x in kinds <==> x == k || x in rest;
      SetIsRead(cs, Unset(a, k), now);
      MarkUnsetIsRead(a, if k in active then cs else SetStatus(cs, Unset(a, k), now), rest, active, now);
    }
  }

  lemma {:induction false} FilterKeepsFind(p: Condition -> bool, cs: seq<Condition>, kind: string)
    requires forall c: Condition | c.kind == kind :: p(c)
    ensures Find(Filter(p, cs), kind) == Find(cs, kind)
  {
    FirstOfFilter(OfKind(kind), p, cs);
  }

  /** Every finished cycle is settled for its own marks. */
  lemma CycleSettles(a: Aggregator, cs: seq<Condition>, ms: seq<Mark>, cleanup: bool, clock: Clock)
    requires WellFormed(a) && Orderly(a, ms)
    ensures var r := Cycle(a, cs, ms, cleanup, clock);
            Settled(a, r, ms, cleanup) && Sorted(Order(a), r)
  {
    var kinds := Listing(a.dependents.Keys);
    var started := AfterNew(a, cs, clock.creation).(active := Some({}));
    forall d | d in a.dependents ensures Has(started.conditions, d) {
      assert d in Elements(kinds);
      SeededPresent(a, State(cs, None), [a.target] + kinds, clock.creation);
    }
    var marked := Marked(a, started, ms);
    MarksAreRead(a, started, ms);
    assert {} + Kinds(ms) == Kinds(ms);
    DependentsStayPresent(a, started, ms);
    var cleaned := if cleanup then AfterCleanup(a, marked, clock.cleanup) else marked;
    if cleanup {
      CleanupIsRead(a, marked, clock.cleanup);
    }
    RecomputeSettles(a, marked.conditions, cleaned.conditions, ms, cleanup, clock.recompute);
    SortSettled(a, Recomputed(a, cleaned.conditions, clock.recompute), ms, cleanup);
  }

  lemma RecomputeSettles(
      a: Aggregator, marked: seq<Condition>, cleaned: seq<Condition>, ms: seq<Mark>, cleanup: bool, now: Instant)
    requires WellFormed(a) && Orderly(a, ms)
    requires forall m | m in ms :: !Changes(marked, m.condition)
    requires forall d | d in a.dependents :: Has(marked, d)
    requires forall k | k in Kinds(ms) && k != a.target :: Find(cleaned, k) == Find(marked, k)
    requires !cleanup ==> cleaned == marked
    requires cleanup ==> forall d | d in a.dependents && d !in Kinds(ms) :: !Changes(cleaned, Unset(a, d))
    requires cleanup ==> forall c | c in cleaned :: Survives(a, Kinds(ms))(c)
    ensures Settled(a, Recomputed(a, cleaned, now), ms, cleanup)
  {
    var final := Recomputed(a, cleaned, now);
    RecomputeSyncs(a, cleaned, now);
    SetIsRead(cleaned, Aggregated(a, cleaned), now);
    RecomputeAddsOnlyTarget(a, cleaned, now);
    forall m | m in ms ensures !Changes(final, m.condition) {
      assert m.condition.kind in Kinds(ms);
    }
    forall d | d in a.dependents ensures Has(final, d) {
      if d in Kinds(ms) {
        assert Find(final, d) == Find(marked, d);
      }
    }
  }

  lemma RecomputeAddsOnlyTarget(a: Aggregator, cs: seq<Condition>, now: Instant)
    ensures forall c | c in Recomputed(a, cs, now) :: c.kind == a.target || c in cs
  {
    UpsertMembers(cs, Stamped(Aggregated(a, cs), now));
  }

  lemma {:induction false} UpsertMembers(cs: seq<Condition>, n: Condition)
    ensures forall c | c in Upsert(cs, n) :: c.kind == n.kind || c in cs
  {
    if cs != [] && cs[0].kind != n.kind {
      UpsertMembers(cs[1..], n);
    }
  }

  lemma {:induction false} SeededPresent(a: Aggregator, s: State, kinds: seq<string>, now: Instant)
    ensures forall k | k in kinds || Has(s.conditions, k) :: Has(Seeded(a, s, kinds, now).conditions, k)
    decreases |kinds|
  {
    if kinds != [] {
      var c := Plain(kinds[0], ConditionUnknown);
      var s' := if Has(s.conditions, kinds[0]) then s else AfterSet(a, s, c, now);
      SetIsRead(s.conditions, c, now);
      var written := SetStatus(s.conditions, c, now);
      SetIsRead(written, Aggregated(a, written), now);
      SeededPresent(a, s', kinds[1..], now);
    }
  }

  lemma DependentsStayPresent(a: Aggregator, s: State, ms: seq<Mark>)
    requires WellFormed(a) && Orderly(a, ms) && s.active.Some?
    requires forall d | d in a.dependents :: Has(s.conditions, d)
    ensures forall d | d in a.dependents :: Has(Marked(a, s, ms).conditions, d)
  {
    MarksAreRead(a, s, ms);
    forall d | d in a.dependents ensures Has(Marked(a, s, ms).conditions, d) {
      if d in Kinds(ms) {
        var m :| m in ms && m.condition.kind == d;
      }
    }
  }

  /** What cleanup does to each kind: unwritten dependents become unset, other unwritten kinds go. */
  lemma CleanupIsRead(a: Aggregator, s: State, now: Instant)
    requires WellFormed(a) && s.active.Some?
    ensures var t := AfterCleanup(a, s, now);
            && t.active == s.active
            && (forall d | d in a.dependents && d !in s.active.value :: !Changes(t.conditions, Unset(a, d)))
            && (forall k | k in s.active.value && k != a.target :: Find(t.conditions, k) == Find(s.conditions, k))
            && (forall c | c in t.conditions :: Survives(a, s.active.value)(c))
  {
    var active, kinds := s.active.value, Listing(a.dependents.Keys);
    assert forall k :: k in kinds <==> k in Elements(kinds);
    var marked := MarkUnset(a, s.conditions, kinds, active, now);
    var kept := Filter(Survives(a, active), marked);
    MarkUnsetIsRead(a, s.conditions, kinds, active, now);
    FilterMembers(Survives(a, active), marked);
    forall k | k in a.dependents || k in active ensures Find(kept, k) == Find(marked, k) {
      FilterKeepsFind(Survives(a, active), marked, k);
    }
    SetIsRead(kept, Aggregated(a, kept), now);
    RecomputeAddsOnlyTarget(a, kept, now);
  }

  lemma SortSettled(a: Aggregator, cs: seq<Condition>, ms: seq<Mark>, cleanup: bool)
    requires Settled(a, cs, ms, cleanup)
    ensures Settled(a, StableSort(Order(a), cs), ms, cleanup)
    ensures Sorted(Order(a), StableSort(Order(a), cs))
  {
    hide StableSort, Aggregated, First, Order;
    forall k { SortKeepsFind(a, cs, k); }
    SortKeepsAggregate(a, cs);
    SortKeepsMembers(Order(a), cs);
    OrderIsTotal(a);
    SortSorts(Order(a), cs);
  }

  /**
   * Quiescence: a second cycle with the same marks, at any later times, leaves
   * the whole list as the first cycle left it, order and transition times
   * included. It holds from any starting list.
   */
  lemma Quiescence(
      a: Aggregator, cs: seq<Condition>, ms: seq<Mark>, ns: seq<Mark>, cleanup: bool, first: Clock, second: Clock)
    requires WellFormed(a) && Orderly(a, ms) && SameMarks(ms, ns)
    ensures var once := Cycle(a, cs, ms, cleanup, first);
            Cycle(a, once, ns, cleanup, second) == once
  {
    var once := Cycle(a, cs, ms, cleanup, first);
    CycleSettles(a, cs, ms, cleanup, first);
    forall m | m in ns ensures !Changes(once, m.condition) {
      var i :| 0 <= i < |ns| && ns[i] == m;
      assert ms[i] in ms;
    }
    SameMarksSameKinds(ms, ns);
    CycleOfSettled(a, once, ns, cleanup, second);
  }

  lemma SameMarksSameKinds(ms: seq<Mark>, ns: seq<Mark>)
    requires SameMarks(ms, ns)
    ensures Kinds(ms) == Kinds(ns)
  {
    forall k ensures k in Kinds(ms) <==> k in Kinds(ns) {
      if k in Kinds(ms) {
        var m :| m in ms && m.condition.kind == k;
        var i :| 0 <= i < |ms| && ms[i] == m;
        assert ns[i] in ns;
      }
      if k in Kinds(ns) {
        var n :| n in ns && n.condition.kind == k;
        var i :| 0 <= i < |ns| && ns[i] == n;
        assert ms[i] in ms;
      }
    }
  }

  /**
   * Why a type may be marked only once: two marks of one type with different
   * statuses leave the time of the second as transition time, in every cycle, however
   * the list stood before.
   */
  lemma RepeatedTypeMovesTransitionTime(
      a: Aggregator, cs: seq<Condition>, c: Condition, d: Condition, t: Instant, u: Instant, clock: Clock)
    requires WellFormed(a) && c.kind == d.kind && c.kind != a.target
    requires c.status != d.status
    ensures var entry := Find(Cycle(a, cs, [Mark(c, t), Mark(d, u)], true, clock), c.kind);
            entry.Some? && entry.value.lastTransitionTime == if d.lastTransitionTime == ZERO_TIME then u
                else d.lastTransitionTime
  {
    var started := AfterNew(a, cs, clock.creation).(active := Some({}));
    var once := AfterSet(a, started, c, t);
    var twice := AfterSet(a, once, d, u);
    assert [Mark(c, t), Mark(d, u)][1..] == [Mark(d, u)] && [Mark(d, u)][1..] == [];
    assert Marked(a, started, [Mark(c, t), Mark(d, u)]) == Marked(a, once, [Mark(d, u)]) == Marked(a, twice, []);
    AfterSetIsRead(a, started, c, t);
    TransitionTimeTracksStatus(once.conditions, d, u);
    var written := SetStatus(once.conditions, d, u);
    SetIsRead(written, Aggregated(a, written), u);
    CleanupIsRead(a, twice, clock.cleanup);
    var cleaned := AfterCleanup(a, twice, clock.cleanup).conditions;
    SetIsRead(cleaned, Aggregated(a, cleaned), clock.recompute);
    SortKeepsFind(a, Recomputed(a, cleaned, clock.recompute), c.kind);
  }
}
