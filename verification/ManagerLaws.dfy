/**
 * What each operation of the framework's condition manager leaves, said of the
 * entries it met: which are written, kept and dropped, and when the target moves.
 */
module ManagerLaws {
  import opened Options
  import opened Ordering
  import opened Sorting
  import opened FrameworkConditions
  import opened ManagerRuns
  import opened ReconcileCycles

  /** A recomputation writes the aggregate of the list, and nothing else. */
  lemma RecomputeSays(a: Aggregator, cs: seq<Condition>, now: Instant)
    ensures IsWritten(cs, Aggregated(a, cs), now, Recomputed(a, cs, now))
  {
    SetStatusWrites(cs, Aggregated(a, cs), now);
  }

  /** A write that changes anything but the target is followed by a recomputation; its type counts as written anyway. */
  lemma SetSays(a: Aggregator, s: State, c: Condition, now: Instant)
    ensures exists written :: IsWritten(s.conditions, c, now, written) &&
              AfterSet(a, s, c, now).conditions ==
              if written == s.conditions || c.kind == a.target then written else Recomputed(a, written, now)
    ensures match s.active
            case None => AfterSet(a, s, c, now).active == None
            case Some(kinds) => AfterSet(a, s, c, now).active == Some(kinds + {c.kind})
  {
    hide Recomputed;
    var cs := s.conditions;
    var written := SetStatus(cs, c, now);
    SetStatusWrites(cs, c, now);
    if !Changes(cs, c) {
      UnchangedWrite(cs, c, now);
    } else {
      SetIsRead(cs, c, now);
      FindIsFirst(cs, c.kind);
    }
  }

  /** The status written for a dependent follows its polarity. */
  lemma StatusSays(a: Aggregator, kind: string)
    ensures var negative := kind in a.dependents && a.dependents[kind] == HealthyWhenFalse;
            && HealthyStatus(a, kind) == (if negative then ConditionFalse else ConditionTrue)
            && UnhealthyStatus(a, kind) == (if negative then ConditionTrue else ConditionFalse)
  {
  }

  /** Clearing drops every entry of the type; it is propagated if there was one. */
  lemma ClearSays(a: Aggregator, s: State, kind: string, now: Instant) returns (kept: seq<Condition>, at: seq<nat>)
    ensures Positions(at, |s.conditions|) && TakenAt(s.conditions, at, kept)
    ensures forall i: nat | i < |s.conditions| :: i in at <==> s.conditions[i].kind != kind
    ensures AfterClear(a, s, kind, now) ==
            State(if kept == s.conditions then s.conditions else Recomputed(a, kept, now), s.active)
  {
    hide Recomputed;
    kept := RemoveStatus(s.conditions, kind);
    at := FilterKeepsOrder(NotOfKind(kind), s.conditions);
    FilterShorter(NotOfKind(kind), s.conditions);
  }

  // ----- cleaning up -----

  /** What a dependent nobody wrote is told to say. */
  function Silence(a: Aggregator, kind: string): Condition {
    var negative := kind in a.dependents && a.dependents[kind] == HealthyWhenFalse;
    Condition(kind, if negative then ConditionTrue else ConditionFalse, 0, 0, "ConditionNotSet",
              "condition " + kind + " was not set during reconciliation", SeverityError, None)
  }

  /** The entry a type shows, before a silence is written over it and after. */
  ghost predicate Silenced(a: Aggregator, kind: string, now: Instant, before: Option<Condition>, after: Condition) {
    var c := Silence(a, kind);
    match before
    case None => after == c.(lastTransitionTime := now)
    case Some(b) =>
      if Agrees(b, c) then after == b
      else after == c.(lastTransitionTime := if b.status == c.status then b.lastTransitionTime else now)
  }

  lemma {:induction false} MarkUnsetSays(
      a: Aggregator, cs: seq<Condition>, kinds: seq<string>, active: set<string>, now: Instant, k: string)
    requires Distinct(kinds)
    ensures var after := Find(MarkUnset(a, cs, kinds, active, now), k);
            if k in kinds && k !in active then after.Some? && Silenced(a, k, now, Find(cs, k), after.value)
            else after == Find(cs, k)
    decreases |kinds|
  {
    if kinds != [] {
      var d, rest := kinds[0], kinds[1..];
      var marked := if d in active then cs else SetStatus(cs, Unset(a, d), now);
      assert d !in rest && (k in kinds <==> k == d || k in rest);
      FindAfterUpsert(cs, Stamped(Unset(a, d), now), k);
      hide SetStatus, Find, Silenced;
      MarkUnsetSays(a, marked, rest, active, now, k);
      if k == d && d !in active {
        SilencedOnce(a, cs, d, now);
      }
    }
  }

  lemma SilencedOnce(a: Aggregator, cs: seq<Condition>, kind: string, now: Instant)
    ensures var after := Find(SetStatus(cs, Unset(a, kind), now), kind);
            after.Some? && Silenced(a, kind, now, Find(cs, kind), after.value)
  {
    assert Unset(a, kind) == Silence(a, kind);
    FindAfterUpsert(cs, Stamped(Unset(a, kind), now), kind);
  }

  /** A dependent nobody wrote, whose entry does not say so yet. */
  ghost predicate MustBeSilenced(a: Aggregator, cs: seq<Condition>, active: set<string>, kind: string) {
    && kind in a.dependents && kind !in active
    && (Find(cs, kind).None? || !Agrees(Find(cs, kind).value, Silence(a, kind)))
  }

  lemma {:induction false} AnyUnsetSays(
      a: Aggregator, cs: seq<Condition>, kinds: seq<string>, active: set<string>, now: Instant)
    requires Distinct(kinds) && forall k | k in kinds :: k in a.dependents
    ensures AnyUnset(a, cs, kinds, active, now) <==> exists k | k in kinds :: MustBeSilenced(a, cs, active, k)
    decreases |kinds|
  {
    if kinds != [] {
      var d, rest := kinds[0], kinds[1..];
      assert d in kinds && d !in rest && forall k :: k in kinds <==> k == d || k in rest;
      assert Unset(a, d) == Silence(a, d);
      var marked := if d in active then cs else SetStatus(cs, Unset(a, d), now);
      AnyUnsetSays(a, marked, rest, active, now);
      SetIsRead(cs, Unset(a, d), now);
      forall k | k in rest ensures MustBeSilenced(a, marked, active, k) <==> MustBeSilenced(a, cs, active, k) {}
      assert Changes(cs, Unset(a, d)) && d !in active <==> MustBeSilenced(a, cs, active, d);
    }
  }

  /** An entry of a type that is neither the target nor a dependent and was not written. */
  ghost predicate IsStale(a: Aggregator, active: set<string>, c: Condition) {
    c.kind != a.target && c.kind !in a.dependents && c.kind !in active
  }

  /**
   * The cleanup before the aggregate is written again: `mid` shows of every type
   * what the list showed, except that unwritten dependents are silenced and stale
   * types are gone. If that is what the list was, nothing happens; otherwise the
   * aggregate of `mid` is written into it.
   */
  lemma CleanupSays(a: Aggregator, s: State, now: Instant) returns (mid: seq<Condition>)
    ensures s.active.None? ==> AfterCleanup(a, s, now) == s
    ensures s.active.Some? ==>
              && (forall c | c in mid :: !IsStale(a, s.active.value, c))
              && (forall k ::
                    if k in a.dependents && k !in s.active.value then
                      Find(mid, k).Some? && Silenced(a, k, now, Find(s.conditions, k), Find(mid, k).value)
                    else if k == a.target || k in s.active.value then Find(mid, k) == Find(s.conditions, k)
                    else Find(mid, k).None?)
              && AfterCleanup(a, s, now).active == s.active
              && var calm := (forall k :: !MustBeSilenced(a, s.conditions, s.active.value, k))
                             && forall c | c in s.conditions :: !IsStale(a, s.active.value, c);
                 if calm then mid == s.conditions && AfterCleanup(a, s, now).conditions == mid
                 else IsWritten(mid, Aggregated(a, mid), now, AfterCleanup(a, s, now).conditions)
  {
    mid := s.conditions;
    if s.active.Some? {
      mid := CleanupLists(a, s.conditions, s.active.value, now);
      RecomputeSays(a, mid, now);
    }
  }

  lemma CleanupLists(a: Aggregator, cs: seq<Condition>, active: set<string>, now: Instant)
    returns (kept: seq<Condition>)
    ensures var kinds := Listing(a.dependents.Keys);
            var marked := MarkUnset(a, cs, kinds, active, now);
            && kept == Filter(Survives(a, active), marked)
            && (forall c | c in kept :: !IsStale(a, active, c))
            && (forall k ::
                  if k in a.dependents && k !in active then
                    Find(kept, k).Some? && Silenced(a, k, now, Find(cs, k), Find(kept, k).value)
                  else if k == a.target || k in active then Find(kept, k) == Find(cs, k)
                  else Find(kept, k).None?)
            && var calm := (forall k :: !MustBeSilenced(a, cs, active, k))
                           && forall c | c in cs :: !IsStale(a, active, c);
               && (calm ==> kept == cs)
               && (calm <==> !AnyUnset(a, cs, kinds, active, now) && kept == marked)
  {
    var kinds := Listing(a.dependents.Keys);
    assert forall k :: k in kinds <==> k in Elements(kinds);
    var marked := MarkUnset(a, cs, kinds, active, now);
    kept := Filter(Survives(a, active), marked);
    FilterMembers(Survives(a, active), marked);
    forall k
      ensures if k in a.dependents && k !in active then
                Find(kept, k).Some? && Silenced(a, k, now, Find(cs, k), Find(kept, k).value)
              else if k == a.target || k in active then Find(kept, k) == Find(cs, k)
              else Find(kept, k).None?
    {
      MarkUnsetSays(a, cs, kinds, active, now, k);
      KeptFinds(a, active, marked, k);
    }
    AnyUnsetSays(a, cs, kinds, active, now);
    if !AnyUnset(a, cs, kinds, active, now) {
      NothingUnset(a, cs, kinds, active, now);
      assert marked == cs;
      KeptAll(a, active, cs);
    }
  }

  lemma KeptFinds(a: Aggregator, active: set<string>, cs: seq<Condition>, k: string)
    ensures Find(Filter(Survives(a, active), cs), k) ==
            if k == a.target || k in a.dependents || k in active then Find(cs, k) else None
  {
    if k == a.target || k in a.dependents || k in active {
      FilterKeepsFind(Survives(a, active), cs, k);
    } else {
      FilterMembers(Survives(a, active), cs);
      FindIsFirst(Filter(Survives(a, active), cs), k);
    }
  }

  lemma KeptAll(a: Aggregator, active: set<string>, cs: seq<Condition>)
    ensures Filter(Survives(a, active), cs) == cs <==> forall c | c in cs :: !IsStale(a, active, c)
  {
    FilterMembers(Survives(a, active), cs);
    if forall c | c in cs :: !IsStale(a, active, c) {
      FilterAll(Survives(a, active), cs);
    }
  }

  // ----- a new manager -----

  lemma SetFinds(a: Aggregator, s: State, c: Condition, now: Instant, k: string)
    requires k != a.target && !Has(s.conditions, c.kind)
    ensures Find(AfterSet(a, s, c, now).conditions, k) ==
            if k == c.kind then Some(Stamped(c, now)) else Find(s.conditions, k)
    ensures AfterSet(a, s, c, now).active.None? <==> s.active.None?
  {
    FindAfterUpsert(s.conditions, Stamped(c, now), k);
    var written := SetStatus(s.conditions, c, now);
    FindAfterUpsert(written, Stamped(Aggregated(a, written), now), k);
  }

  lemma {:induction false} SeededSays(a: Aggregator, s: State, kinds: seq<string>, now: Instant, k: string)
    requires k != a.target
    ensures Find(Seeded(a, s, kinds, now).conditions, k) ==
            if Has(s.conditions, k) || k !in kinds then Find(s.conditions, k)
            else Some(Condition(k, ConditionUnknown, 0, now, "", "", SeverityError, None))
    ensures Seeded(a, s, kinds, now).active.None? <==> s.active.None?
    decreases |kinds|
  {
    if kinds != [] {
      var d, rest := kinds[0], kinds[1..];
      assert k in kinds <==> k == d || k in rest;
      if Has(s.conditions, d) {
        SeededSays(a, s, rest, now, k);
      } else {
        SetFinds(a, s, Plain(d, ConditionUnknown), now, k);
        hide AfterSet, Find;
        SeededSays(a, AfterSet(a, s, Plain(d, ConditionUnknown), now), rest, now, k);
      }
    }
  }

  /** A new manager keeps what each type shows and seeds the missing dependents as Unknown, in silence. */
  lemma NewSays(a: Aggregator, cs: seq<Condition>, now: Instant, k: string)
    requires k != a.target
    ensures AfterNew(a, cs, now).active == None
    ensures Find(AfterNew(a, cs, now).conditions, k) ==
            if Has(cs, k) || k !in a.dependents then Find(cs, k)
            else Some(Condition(k, ConditionUnknown, 0, now, "", "", SeverityError, None))
  {
    var kinds := [a.target] + Listing(a.dependents.Keys);
    assert k in kinds <==> k in Elements(Listing(a.dependents.Keys));
    SeededSays(a, State(cs, None), kinds, now, k);
  }

  // ----- sorting -----

  /** `x` may be listed before `y`: the target, then the dependents, then the rest, each by name. */
  predicate MayPrecede(a: Aggregator, x: string, y: string) {
    && (y == a.target ==> x == a.target)
    && (y != a.target && y in a.dependents ==> x == a.target || (x in a.dependents && Leq(x, y)))
    && (x != a.target && x !in a.dependents && y != a.target && y !in a.dependents ==> Leq(x, y))
  }

  /** Sorting only moves entries, into that order, and keeps entries of one type as they were. */
  lemma SortSays(a: Aggregator, s: State)
    ensures AfterSort(a, s).active == s.active && multiset(AfterSort(a, s).conditions) == multiset(s.conditions)
    ensures forall kind :: Filter(OfKind(kind), AfterSort(a, s).conditions) == Filter(OfKind(kind), s.conditions)
    ensures var out := AfterSort(a, s).conditions;
            forall i, j | 0 <= i < j < |out| :: MayPrecede(a, out[i].kind, out[j].kind)
  {
    var cs := s.conditions;
    var out := StableSort(Order(a), cs);
    OrderIsTotal(a);
    SortPermutes(Order(a), cs);
    SortSorts(Order(a), cs);
    hide StableSort, Filter, MayPrecede;
    forall kind {
      SortKeepsEach(a, cs, kind);
    }
    forall i, j | 0 <= i < j < |out| ensures MayPrecede(a, out[i].kind, out[j].kind) {
      assert Order(a)(out[i], out[j]);
      PrecedesMayPrecede(a, out[i], out[j]);
    }
  }

  lemma PrecedesMayPrecede(a: Aggregator, x: Condition, y: Condition)
    requires Precedes(a, x, y)
    ensures MayPrecede(a, x.kind, y.kind)
  {
  }

  lemma SortKeepsEach(a: Aggregator, cs: seq<Condition>, kind: string)
    ensures Filter(OfKind(kind), StableSort(Order(a), cs)) == Filter(OfKind(kind), cs)
  {
    OrderIsTotal(a);
    SortThenFilter(Order(a), OfKind(kind), cs);
    FilterMembers(OfKind(kind), cs);
    var same := Filter(OfKind(kind), cs);
    assert forall c | c in same :: OfKind(kind)(c) && c.kind == kind;
    assert Sorted(Order(a), same) by {
      forall i, j | 0 <= i < j < |same| ensures Order(a)(same[i], same[j]) {
        assert same[i] in same && same[j] in same;
      }
    }
    SortOfSorted(Order(a), same);
  }
}
