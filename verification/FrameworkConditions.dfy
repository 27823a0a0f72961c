/**
 * Status conditions of the controller framework: the list primitives and the
 * aggregation of dependents into the target ("happy") condition.
 */
module FrameworkConditions {
  import opened Options
  import opened Ordering
  import opened Sorting

  /** A time read from the clock; `0` is Go's zero `metav1.Time`. */
  type Instant = t: int | t != 0 witness 1

  const ZERO_TIME: int := 0

  datatype Status = ConditionTrue | ConditionFalse | ConditionUnknown | OtherStatus(text: string)

  datatype Severity = SeverityError | SeverityInfo | OtherSeverity(text: string)

  datatype Polarity = HealthyWhenTrue | HealthyWhenFalse | OtherPolarity(text: string)

  datatype Condition = Condition(
    kind: string,
    status: Status,
    observedGeneration: int,
    lastTransitionTime: int,
    reason: string,
    message: string,
    severity: Severity,
    lastHeartbeatTime: Option<int>)

  /** A condition with only type and status filled in. */
  function Plain(kind: string, status: Status): Condition {
    Condition(kind, status, 0, ZERO_TIME, "", "", SeverityError, None)
  }

  // ----- conditions_support.go -----

  function OfKind(kind: string): Condition -> bool {
    (c: Condition) => c.kind == kind
  }

  function Find(cs: seq<Condition>, kind: string): Option<Condition> {
    First(OfKind(kind), cs)
  }

  predicate Has(cs: seq<Condition>, kind: string) {
    Find(cs, kind).Some?
  }

  /** `equals`: the comparison that decides whether a write is a change. */
  predicate Same(x: Condition, y: Condition) {
    && x.status == y.status
    && x.reason == y.reason
    && x.message == y.message
    && x.observedGeneration == y.observedGeneration
    && x.severity == y.severity
  }

  function Stamped(c: Condition, now: Instant): Condition {
    c.(lastHeartbeatTime := None,
       lastTransitionTime := if c.lastTransitionTime == ZERO_TIME then now else c.lastTransitionTime)
  }

  /** What an existing entry becomes when `n` is written over it. */
  function Updated(old': Condition, n: Condition): Condition {
    if Same(old', n) then old'
    else if old'.status != n.status then n
    else n.(lastTransitionTime := old'.lastTransitionTime)
  }

  function Upsert(cs: seq<Condition>, n: Condition): seq<Condition> {
    if cs == [] then [n]
    else if cs[0].kind == n.kind then [Updated(cs[0], n)] + cs[1..]
    else [cs[0]] + Upsert(cs[1..], n)
  }

  function SetStatus(cs: seq<Condition>, c: Condition, now: Instant): seq<Condition> {
    Upsert(cs, Stamped(c, now))
  }

  /** The boolean `SetStatusCondition` returns. */
  predicate Changes(cs: seq<Condition>, c: Condition) {
    var found := Find(cs, c.kind);
    found.None? || !Same(found.value, c)
  }

  function NotOfKind(kind: string): Condition -> bool {
    (c: Condition) => c.kind != kind
  }

  function RemoveStatus(cs: seq<Condition>, kind: string): seq<Condition> {
    Filter(NotOfKind(kind), cs)
  }

  ghost predicate UniqueKinds(cs: seq<Condition>) {
    forall i, j | 0 <= i < j < |cs| :: cs[i].kind != cs[j].kind
  }

  lemma {:induction false} FindAfterUpsert(cs: seq<Condition>, n: Condition, kind: string)
    ensures Find(Upsert(cs, n), kind) ==
            if kind != n.kind then Find(cs, kind)
            else if Find(cs, kind).None? then Some(n)
            else Some(Updated(Find(cs, kind).value, n))
  {
    if cs == [] {
      assert [n][1..] == [];
    } else if cs[0].kind == n.kind {
      FirstCons(OfKind(kind), Updated(cs[0], n), cs[1..]);
    } else {
      FindAfterUpsert(cs[1..], n, kind);
      FirstCons(OfKind(kind), cs[0], Upsert(cs[1..], n));
    }
  }

  /** A write is seen by its own kind, up to times, and by no other. */
  lemma SetIsRead(cs: seq<Condition>, c: Condition, now: Instant)
    ensures Has(SetStatus(cs, c, now), c.kind) && Same(Find(SetStatus(cs, c, now), c.kind).value, c)
    ensures forall kind | kind != c.kind :: Find(SetStatus(cs, c, now), kind) == Find(cs, kind)
  {
    forall kind { FindAfterUpsert(cs, Stamped(c, now), kind); }
  }

  /** The entry a lookup of `kind` finds. */
  ghost predicate IsFirst(cs: seq<Condition>, kind: string, i: int) {
    0 <= i < |cs| && cs[i].kind == kind && forall j | 0 <= j < i :: cs[j].kind != kind
  }

  /** An entry already says what is being written; times do not count. */
  predicate Agrees(x: Condition, c: Condition) {
    (x.status, x.reason, x.message, x.observedGeneration, x.severity)
    == (c.status, c.reason, c.message, c.observedGeneration, c.severity)
  }

  /** The time a written entry carries when its status moves. */
  function Moment(c: Condition, now: Instant): int {
    if c.lastTransitionTime != ZERO_TIME then c.lastTransitionTime else now
  }

  /**
   * `out` is `cs` with `c` written: appended when its type is missing, left alone
   * when the first entry of the type agrees, and otherwise in the place of that
   * entry, whose transition time stays unless the status moves.
   */
  ghost predicate IsWritten(cs: seq<Condition>, c: Condition, now: Instant, out: seq<Condition>) {
    && ((forall x | x in cs :: x.kind != c.kind) ==>
          out == cs + [c.(lastHeartbeatTime := None, lastTransitionTime := Moment(c, now))])
    && forall i | IsFirst(cs, c.kind, i) ::
         if Agrees(cs[i], c) then out == cs
         else
           var time := if cs[i].status == c.status then cs[i].lastTransitionTime else Moment(c, now);
           out == cs[i := c.(lastHeartbeatTime := None, lastTransitionTime := time)]
  }

  lemma {:induction false} FindIsFirst(cs: seq<Condition>, kind: string)
    ensures Has(cs, kind) <==> exists c | c in cs :: c.kind == kind
    ensures Has(cs, kind) ==> exists i :: IsFirst(cs, kind, i)
    ensures forall i | IsFirst(cs, kind, i) :: Find(cs, kind) == Some(cs[i])
  {
    FirstFinds(OfKind(kind), cs);
    if Has(cs, kind) {
      var i :| 0 <= i < |cs| && cs[i] == Find(cs, kind).value && cs[i].kind == kind
               && forall j | 0 <= j < i :: !OfKind(kind)(cs[j]);
      assert forall j | 0 <= j < i :: !OfKind(kind)(cs[j]) ==> cs[j].kind != kind;
      assert IsFirst(cs, kind, i);
      forall k | IsFirst(cs, kind, k) ensures k == i {}
    } else {
      assert forall c | c in cs :: !OfKind(kind)(c) ==> c.kind != kind;
    }
  }

  lemma {:induction false} UpsertWrites(cs: seq<Condition>, n: Condition)
    ensures (forall x | x in cs :: x.kind != n.kind) ==> Upsert(cs, n) == cs + [n]
    ensures forall i | IsFirst(cs, n.kind, i) :: Upsert(cs, n) == cs[i := Updated(cs[i], n)]
  {
    if cs != [] && cs[0].kind != n.kind {
      UpsertWrites(cs[1..], n);
      forall i | IsFirst(cs, n.kind, i) ensures Upsert(cs, n) == cs[i := Updated(cs[i], n)] {
        assert forall j | 0 <= j < i - 1 :: cs[1..][j] == cs[j + 1];
        assert IsFirst(cs[1..], n.kind, i - 1);
      }
    } else if cs != [] {
      forall i | IsFirst(cs, n.kind, i) ensures i == 0 {}
    }
  }

  /** What a write leaves behind, and when it counts as a change. */
  lemma SetStatusWrites(cs: seq<Condition>, c: Condition, now: Instant)
    ensures IsWritten(cs, c, now, SetStatus(cs, c, now))
    ensures Changes(cs, c) <==>
            (forall x | x in cs :: x.kind != c.kind) || exists i :: IsFirst(cs, c.kind, i) && !Agrees(cs[i], c)
  {
    UpsertWrites(cs, Stamped(c, now));
    FindIsFirst(cs, c.kind);
    forall i | IsFirst(cs, c.kind, i) && Agrees(cs[i], c) ensures cs[i := Updated(cs[i], Stamped(c, now))] == cs {
      assert Updated(cs[i], Stamped(c, now)) == cs[i];
    }
  }

  /**
   * The transition time of an entry moves only when its status does: to the time
   * the caller brings, if it brings one.
   */
  lemma TransitionTimeTracksStatus(cs: seq<Condition>, c: Condition, now: Instant)
    requires Has(cs, c.kind)
    ensures
      var before, after := Find(cs, c.kind).value, Find(SetStatus(cs, c, now), c.kind);
      && after.Some?
      && after.value.lastTransitionTime ==
         (if before.status == c.status then before.lastTransitionTime
          else if c.lastTransitionTime == ZERO_TIME then now
          else c.lastTransitionTime)
  {
    FindAfterUpsert(cs, Stamped(c, now), c.kind);
  }

  lemma {:induction false} UnchangedWrite(cs: seq<Condition>, c: Condition, now: Instant)
    requires !Changes(cs, c)
    ensures SetStatus(cs, c, now) == cs
  {
    if cs != [] && cs[0].kind != c.kind {
      UnchangedWrite(cs[1..], c, now);
    }
  }

  lemma {:induction false} UpsertKeepsUnique(cs: seq<Condition>, n: Condition)
    requires UniqueKinds(cs)
    ensures UniqueKinds(Upsert(cs, n))
    ensures forall x | x in Upsert(cs, n) :: x.kind == n.kind || x in cs
  {
    if cs != [] && cs[0].kind != n.kind {
      UpsertKeepsUnique(cs[1..], n);
    }
  }

  lemma {:induction false} FilterKeepsUnique(p: Condition -> bool, cs: seq<Condition>)
    requires UniqueKinds(cs)
    ensures UniqueKinds(Filter(p, cs))
  {
    if cs != [] {
      FilterKeepsUnique(p, cs[1..]);
      FilterMembers(p, cs[1..]);
      assert forall x | x in cs[1..] :: x.kind != cs[0].kind;
    }
  }

  /** Writing a kind a filter rejects does not show through the filter. */
  lemma {:induction false} FilterHidesUpsert(p: Condition -> bool, cs: seq<Condition>, n: Condition)
    requires forall x: Condition | x.kind == n.kind :: !p(x)
    ensures Filter(p, Upsert(cs, n)) == Filter(p, cs)
  {
    if cs != [] && cs[0].kind != n.kind {
      FilterHidesUpsert(p, cs[1..], n);
      FilterCons(p, cs[0], Upsert(cs[1..], n));
    } else if cs != [] {
      FilterCons(p, Updated(cs[0], n), cs[1..]);
    }
  }

  // ----- conditions_aggregator.go -----

  datatype Aggregator = Aggregator(target: string, dependents: map<string, Polarity>)

  datatype Dependent = Dependent(kind: string, polarity: Polarity)

  datatype ConfigError = EmptyDependentType | DependentIsTarget(kind: string) | ConflictingPolarity(kind: string)

  /** What `NewAggregator` guarantees about the aggregators it returns. */
  ghost predicate WellFormed(a: Aggregator) {
    a.target !in a.dependents && "" !in a.dependents
  }

  /** No definition is unnamed or the target, and none disagrees with another on the polarity of its type. */
  predicate Accepts(target: string, ds: seq<Dependent>) {
    && (forall d | d in ds :: d.kind != "" && d.kind != target)
    && (forall d, e | d in ds && e in ds && d.kind == e.kind :: d.polarity == e.polarity)
  }

  method NewAggregator(target: string, definitions: seq<Dependent>) returns (r: Result<Aggregator, ConfigError>)
    ensures r.Ok? <==> Accepts(target, definitions)
    ensures r.Ok? ==> WellFormed(r.value) && r.value.target == target
    ensures r.Ok? ==> forall d: Dependent :: d in definitions <==>
                                             d.kind in r.value.dependents && r.value.dependents[d.kind] == d.polarity
  {
    var dependents: map<string, Polarity> := map[];
    for i := 0 to |definitions|
      invariant Accepts(target, definitions[..i])
      invariant target !in dependents && "" !in dependents
      invariant forall d: Dependent :: d in definitions[..i] <==>
                  d.kind in dependents && dependents[d.kind] == d.polarity
    {
      var d := definitions[i];
      assert definitions[..i + 1] == definitions[..i] + [d];
      assert d in definitions;
      if d.kind == "" {
        return Err(EmptyDependentType);
      }
      if d.kind == target {
        return Err(DependentIsTarget(d.kind));
      }
      if d.kind in dependents {
        if dependents[d.kind] != d.polarity {
          assert Dependent(d.kind, dependents[d.kind]) in definitions[..i];
          return Err(ConflictingPolarity(d.kind));
        }
      } else {
        forall e | e in definitions[..i] ensures e.kind != d.kind {
          assert e.kind in dependents;
        }
        dependents := dependents[d.kind := d.polarity];
      }
    }
    assert definitions[..|definitions|] == definitions;
    return Ok(Aggregator(target, dependents));
  }

  function PolarityFor(a: Aggregator, kind: string): Polarity {
    if kind in a.dependents then a.dependents[kind] else HealthyWhenTrue
  }

  predicate Considered(a: Aggregator, c: Condition) {
    if c.kind == a.target then false
    else if c.severity == SeverityInfo then false
    else if |a.dependents| == 0 then true
    else c.kind in a.dependents
  }

  predicate Healthy(a: Aggregator, c: Condition) {
    if c.status == ConditionUnknown then false
    else match PolarityFor(a, c.kind)
      case HealthyWhenFalse => c.status == ConditionFalse
      case _ => c.status == ConditionTrue
  }

  predicate Blocks(a: Aggregator, c: Condition) {
    Considered(a, c) && !Healthy(a, c)
  }

  function Rank(a: Aggregator, kind: string): nat {
    if kind == a.target then 0 else if kind in a.dependents then 1 else 2
  }

  predicate Precedes(a: Aggregator, x: Condition, y: Condition) {
    if Rank(a, x.kind) != Rank(a, y.kind) then Rank(a, x.kind) < Rank(a, y.kind)
    else Leq(x.kind, y.kind)
  }

  /** `compareConditions`: target first, then dependents, then the rest, each by type. */
  function Order(a: Aggregator): (Condition, Condition) -> bool {
    (x: Condition, y: Condition) => Precedes(a, x, y)
  }

  lemma OrderIsTotal(a: Aggregator)
    ensures TotalPreorder(Order(a))
    ensures forall x, y | Precedes(a, x, y) && Precedes(a, y, x) :: x.kind == y.kind
  {
    StringOrderIsTotal();
    forall x: Condition, y: Condition ensures Precedes(a, x, y) || Precedes(a, y, x) {
      assert StringOrder()(x.kind, y.kind) || StringOrder()(y.kind, x.kind);
    }
    forall x: Condition, y: Condition, z: Condition | Precedes(a, x, y) && Precedes(a, y, z)
      ensures Precedes(a, x, z)
    {
      if Rank(a, x.kind) == Rank(a, y.kind) == Rank(a, z.kind) {
        LeqTransitive(x.kind, y.kind, z.kind);
      }
    }
  }

  function ConsideredBy(a: Aggregator): Condition -> bool {
    (c: Condition) => Considered(a, c)
  }

  function ExplicitBlock(a: Aggregator): Condition -> bool {
    (c: Condition) => Blocks(a, c) && c.status != ConditionUnknown
  }

  function UnknownBlock(a: Aggregator): Condition -> bool {
    (c: Condition) => Blocks(a, c) && c.status == ConditionUnknown
  }

  /** `firstUnhealthyCondition` on a sorted list. */
  function SelectSorted(a: Aggregator, cs: seq<Condition>): Option<Condition> {
    if First(ExplicitBlock(a), cs).Some? then First(ExplicitBlock(a), cs) else First(UnknownBlock(a), cs)
  }

  function Select(a: Aggregator, cs: seq<Condition>): Option<Condition> {
    SelectSorted(a, StableSort(Order(a), cs))
  }

  function Aggregated(a: Aggregator, cs: seq<Condition>): Condition {
    match Select(a, cs)
    case None => Plain(a.target, ConditionTrue)
    case Some(c) =>
      Plain(a.target, if c.status == ConditionUnknown then ConditionUnknown else ConditionFalse)
      .(reason := c.reason, message := c.message)
  }

  /** The loop of `firstUnhealthyCondition`, over a sorted clone of the list. */
  method FirstUnhealthyCondition(a: Aggregator, conditions: seq<Condition>) returns (selected: Option<Condition>)
    ensures selected == Select(a, conditions)
  {
    var sorted := StableSort(Order(a), conditions);
    var explicitUnhealthy, unknownUnhealthy := None, None;
    for i := 0 to |sorted|
      invariant First(ExplicitBlock(a), sorted) ==
                if explicitUnhealthy.Some? then explicitUnhealthy else First(ExplicitBlock(a), sorted[i..])
      invariant First(UnknownBlock(a), sorted) ==
                if unknownUnhealthy.Some? then unknownUnhealthy else First(UnknownBlock(a), sorted[i..])
    {
      assert sorted[i..][0] == sorted[i] && sorted[i..][1..] == sorted[i + 1..];
      if !Considered(a, sorted[i]) || Healthy(a, sorted[i]) {
        continue;
      }
      if sorted[i].status == ConditionUnknown {
        if unknownUnhealthy.None? {
          unknownUnhealthy := Some(sorted[i]);
        }
        continue;
      }
      if explicitUnhealthy.None? {
        explicitUnhealthy := Some(sorted[i]);
      }
    }
    selected := if explicitUnhealthy.Some? then explicitUnhealthy else unknownUnhealthy;
  }

  // ----- what the aggregation means -----

  /** `c` outranks `d` as the reason for not being ready: explicit before unknown, then by type. */
  predicate Outranks(c: Condition, d: Condition) {
    if (c.status == ConditionUnknown) != (d.status == ConditionUnknown) then d.status == ConditionUnknown
    else Leq(c.kind, d.kind)
  }

  lemma FirstBlockIsLeast(a: Aggregator, p: Condition -> bool, cs: seq<Condition>)
    requires forall c: Condition | p(c) :: Blocks(a, c)
    ensures
      var f := First(p, StableSort(Order(a), cs));
      && (f.None? <==> forall c | c in cs :: !p(c))
      && (f.Some? ==> f.value in cs && p(f.value) && forall d | d in cs && p(d) :: Leq(f.value.kind, d.kind))
  {
    var s := StableSort(Order(a), cs);
    FirstFinds(p, s);
    SortKeepsMembers(Order(a), cs);
    OrderIsTotal(a);
    SortSorts(Order(a), cs);
    var f := First(p, s);
    if f.Some? {
      var i :| 0 <= i < |s| && s[i] == f.value && p(s[i]) && forall j | 0 <= j < i :: !p(s[j]);
      forall d | d in cs && p(d) ensures Leq(f.value.kind, d.kind) {
        var j :| 0 <= j < |s| && s[j] == d;
        assert j == i || Order(a)(s[i], s[j]);
        assert Rank(a, s[i].kind) == Rank(a, d.kind);
      }
    }
  }

  /** The aggregate reports the least-typed explicitly unhealthy condition, else the least-typed unknown one. */
  lemma SelectIsLeastBlocking(a: Aggregator, cs: seq<Condition>)
    ensures Select(a, cs).None? <==> forall c | c in cs :: !Blocks(a, c)
    ensures Select(a, cs).Some? ==>
              var c := Select(a, cs).value;
              c in cs && Blocks(a, c) && forall d | d in cs && Blocks(a, d) :: Outranks(c, d)
  {
    FirstBlockIsLeast(a, ExplicitBlock(a), cs);
    FirstBlockIsLeast(a, UnknownBlock(a), cs);
    forall c | c in cs && Blocks(a, c) ensures ExplicitBlock(a)(c) || UnknownBlock(a)(c) {}
  }

  lemma AggregateTrueMeansAllHealthy(a: Aggregator, cs: seq<Condition>)
    ensures Aggregated(a, cs).status == ConditionTrue <==> forall c | c in cs && Considered(a, c) :: Healthy(a, c)
  {
    SelectIsLeastBlocking(a, cs);
  }

  /** What takes part: neither the target nor an informational condition, and only dependents where any are declared. */
  lemma ConsideredExactlyWhen(a: Aggregator, c: Condition)
    ensures Considered(a, c) <==>
            c.kind != a.target && c.severity != SeverityInfo && (a.dependents == map[] || c.kind in a.dependents)
  {
  }

  /** A dependent of negative polarity is healthy when False, anything else when True, and nothing when Unknown. */
  lemma HealthyExactlyWhen(a: Aggregator, c: Condition)
    ensures Healthy(a, c) <==>
            if c.kind in a.dependents && a.dependents[c.kind] == HealthyWhenFalse then c.status == ConditionFalse
            else c.status == ConditionTrue
  {
  }

  /**
   * The status of the aggregate, from the list: False if some considered
   * condition is explicitly unhealthy, else Unknown if some is Unknown, else
   * True. A False or Unknown aggregate repeats the reason and the message of the
   * first culprit: explicit ones before Unknown ones, then by type.
   */
  lemma AggregateSays(a: Aggregator, cs: seq<Condition>)
    ensures var r := Aggregated(a, cs);
            && r == Condition(a.target, r.status, 0, 0, r.reason, r.message, SeverityError, None)
            && (r.status == ConditionFalse <==>
                  exists c | c in cs :: Considered(a, c) && !Healthy(a, c) && c.status != ConditionUnknown)
            && (r.status == ConditionUnknown <==>
                  && (forall c | c in cs && Considered(a, c) :: Healthy(a, c) || c.status == ConditionUnknown)
                  && exists c | c in cs :: Considered(a, c) && c.status == ConditionUnknown)
            && (r.status == ConditionTrue <==> forall c | c in cs && Considered(a, c) :: Healthy(a, c))
            && (r.status == ConditionTrue ==> r.reason == "" && r.message == "")
    ensures Aggregated(a, cs).status != ConditionTrue ==>
              exists c | c in cs && Considered(a, c) && !Healthy(a, c) ::
                && Aggregated(a, cs).reason == c.reason && Aggregated(a, cs).message == c.message
                && (c.status == ConditionUnknown <==> Aggregated(a, cs).status == ConditionUnknown)
                && forall d | d in cs && Considered(a, d) && !Healthy(a, d) ::
                     (c.status == ConditionUnknown <==> d.status == ConditionUnknown) ==> Leq(c.kind, d.kind)
  {
    SelectIsLeastBlocking(a, cs);
    hide Considered, Select, Leq;
    if Select(a, cs).Some? {
      var c := Select(a, cs).value;
      assert Blocks(a, c);
    }
  }

  /** With unique types, the aggregate does not depend on the order of the list. */
  lemma AggregateForgetsOrder(a: Aggregator, cs: seq<Condition>, ds: seq<Condition>)
    requires UniqueKinds(cs) && multiset(cs) == multiset(ds)
    ensures Aggregated(a, cs) == Aggregated(a, ds)
  {
    OrderIsTotal(a);
    forall x, y | x in cs && y in cs && Order(a)(x, y) && Order(a)(y, x) ensures x == y {
      assert x.kind == y.kind;
    }
    SortForgetsOrder(Order(a), cs, ds);
  }

  /** Without unique types it does: of two blocking entries of one type, the first in the list is reported. */
  lemma DuplicateTypesShowOrder(a: Aggregator, x: Condition, y: Condition)
    requires x.kind == y.kind && Blocks(a, x) && Blocks(a, y)
    requires x.status != ConditionUnknown && y.status != ConditionUnknown && x.reason != y.reason
    ensures multiset([x, y]) == multiset([y, x]) && Aggregated(a, [x, y]) != Aggregated(a, [y, x])
  {
    assert multiset([x, y]) == multiset{x, y} == multiset([y, x]);
    forall p, q | (p == x && q == y) || (p == y && q == x)
      ensures Select(a, [p, q]) == Some(p)
    {
      SortOfSorted(Order(a), [p, q]);
      assert ExplicitBlock(a)([p, q][0]);
    }
  }

  lemma SelectLooksAtConsidered(a: Aggregator, cs: seq<Condition>)
    ensures Select(a, cs) == Select(a, Filter(ConsideredBy(a), cs))
  {
    OrderIsTotal(a);
    SortThenFilter(Order(a), ConsideredBy(a), cs);
    var s := StableSort(Order(a), cs);
    FirstOfFilter(ExplicitBlock(a), ConsideredBy(a), s);
    FirstOfFilter(UnknownBlock(a), ConsideredBy(a), s);
  }

  lemma AggregateIgnoresTarget(a: Aggregator, cs: seq<Condition>, c: Condition, now: Instant)
    requires c.kind == a.target
    ensures Aggregated(a, SetStatus(cs, c, now)) == Aggregated(a, cs)
  {
    SelectLooksAtConsidered(a, cs);
    SelectLooksAtConsidered(a, SetStatus(cs, c, now));
    FilterHidesUpsert(ConsideredBy(a), cs, Stamped(c, now));
  }

  // ----- the list under `Sort` -----

  lemma {:induction false} InsertKeepsFirst(a: Aggregator, x: Condition, cs: seq<Condition>, kind: string)
    ensures Find(Insert(Order(a), x, cs), kind) == if x.kind == kind then Some(x) else Find(cs, kind)
  {
    if cs == [] || Order(a)(x, cs[0]) {
      assert Insert(Order(a), x, cs) == [x] + cs;
      FirstCons(OfKind(kind), x, cs);
    } else {
      InsertKeepsFirst(a, x, cs[1..], kind);
      FirstCons(OfKind(kind), cs[0], Insert(Order(a), x, cs[1..]));
    }
  }

  /** Sorting is stable, so the entry a lookup finds stays the entry it finds. */
  lemma {:induction false} SortKeepsFind(a: Aggregator, cs: seq<Condition>, kind: string)
    ensures Find(StableSort(Order(a), cs), kind) == Find(cs, kind)
  {
    if cs != [] {
      SortKeepsFind(a, cs[1..], kind);
      InsertKeepsFirst(a, cs[0], StableSort(Order(a), cs[1..]), kind);
    }
  }

  lemma SortKeepsAggregate(a: Aggregator, cs: seq<Condition>)
    ensures Aggregated(a, StableSort(Order(a), cs)) == Aggregated(a, cs)
  {
    OrderIsTotal(a);
    SortIdempotent(Order(a), cs);
  }

  lemma {:induction false} InsertKeepsUnique(le: (Condition, Condition) -> bool, x: Condition, cs: seq<Condition>)
    requires UniqueKinds([x] + cs)
    ensures UniqueKinds(Insert(le, x, cs))
  {
    if cs != [] && !le(x, cs[0]) {
      assert UniqueKinds([x] + cs[1..]) by {
        assert [x] + cs[1..] == ([x] + cs)[..1] + ([x] + cs)[2..];
      }
      InsertKeepsUnique(le, x, cs[1..]);
      InsertPermutes(le, x, cs[1..]);
      forall y | y in Insert(le, x, cs[1..]) ensures y.kind != cs[0].kind {
        assert y in multiset{x} + multiset(cs[1..]);
        assert y == x || y in cs[1..];
        assert ([x] + cs)[0] == x && ([x] + cs)[1] == cs[0];
        assert forall j | 1 <= j < |cs| :: ([x] + cs)[j + 1] == cs[j];
      }
    }
  }

  lemma {:induction false} SortKeepsUnique(le: (Condition, Condition) -> bool, cs: seq<Condition>)
    requires UniqueKinds(cs)
    ensures UniqueKinds(StableSort(le, cs))
  {
    if cs != [] {
      SortKeepsUnique(le, cs[1..]);
      var rest := StableSort(le, cs[1..]);
      SortKeepsMembers(le, cs[1..]);
      forall y | y in rest ensures y.kind != cs[0].kind {
        assert y in cs[1..];
      }
      InsertKeepsUnique(le, cs[0], rest);
    }
  }
}
