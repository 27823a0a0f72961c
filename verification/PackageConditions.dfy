/**
 * The stand-alone condition manager: a "happy" condition that mirrors the most
 * urgent unhappy dependent. The list primitives are those of the framework.
 */
module PackageConditions {
  import opened Options
  import opened Ordering
  import opened Sorting
  import opened FrameworkConditions
  import opened FrameworkManager

  datatype Registration = Registration(happy: string, dependents: seq<string>)

  const ALL_HEALTHY := "AllDependentsHealthy"

  // ----- registration -----

  /** The dependents kept by `NewManager`: first occurrences, the happy type left out. */
  function Kept(happy: string, ds: seq<string>): seq<string> {
    if ds == [] then []
    else
      var before, last := Kept(happy, ds[..|ds| - 1]), ds[|ds| - 1];
      if last == happy || last in before then before else before + [last]
  }

  lemma {:induction false} KeptLists(happy: string, ds: seq<string>)
    ensures Distinct(Kept(happy, ds)) && happy !in Kept(happy, ds)
    ensures forall d :: d in Kept(happy, ds) <==> d in ds && d != happy
  {
    if ds != [] {
      KeptLists(happy, ds[..|ds| - 1]);
      assert ds == ds[..|ds| - 1] + [ds[|ds| - 1]];
    }
  }

  method Deduplicate(happy: string, dependents: seq<string>) returns (unique: seq<string>)
    ensures unique == Kept(happy, dependents)
  {
    unique := [];
    var seen: set<string> := {};
    for i := 0 to |dependents|
      invariant unique == Kept(happy, dependents[..i]) && seen == Elements(unique)
    {
      assert dependents[..i + 1][..i] == dependents[..i];
      var dep := dependents[i];
      if dep == happy || dep in seen {
        continue;
      }
      assert Elements(unique + [dep]) == Elements(unique) + {dep};
      seen := seen + {dep};
      unique := unique + [dep];
    }
    assert dependents[..|dependents|] == dependents;
  }

  // ----- selection -----

  predicate Unhappy(c: Condition) {
    c.severity != SeverityInfo && (c.status == ConditionFalse || c.status == ConditionUnknown)
  }

  /** The unhappy condition of a dependent, if it has one. */
  function Complaint(cs: seq<Condition>, kind: string): (r: seq<Condition>)
    ensures |r| <= 1
  {
    var found := Find(cs, kind);
    if found.Some? && Unhappy(found.value) then [found.value] else []
  }

  function Candidates(cs: seq<Condition>, ds: seq<string>): seq<Condition> {
    if ds == [] then [] else Complaint(cs, ds[0]) + Candidates(cs, ds[1..])
  }

  lemma NoCandidates(cs: seq<Condition>)
    ensures Candidates(cs, []) == []
  {
  }

  lemma {:induction false} NextCandidate(cs: seq<Condition>, ds: seq<string>, d: string)
    ensures Candidates(cs, ds + [d]) == Candidates(cs, ds) + Complaint(cs, d)
  {
    if ds != [] {
      NextCandidate(cs, ds[1..], d);
      assert (ds + [d])[1..] == ds[1..] + [d];
    } else {
      assert [d][1..] == [];
    }
  }

  /** The order in which `findUnhappyDependent` sorts its candidates: False first, then the latest transition. */
  predicate AtLeastAsUrgent(x: Condition, y: Condition) {
    if (x.status == ConditionFalse) != (y.status == ConditionFalse) then x.status == ConditionFalse
    else y.lastTransitionTime <= x.lastTransitionTime
  }

  function Urgency(): (Condition, Condition) -> bool {
    (x, y) => AtLeastAsUrgent(x, y)
  }

  function Selected(cs: seq<Condition>, ds: seq<string>): Option<Condition> {
    var sorted := StableSort(Urgency(), Candidates(cs, ds));
    if sorted == [] then None else Some(sorted[0])
  }

  /** The dependent at a registration index speaks for the list. */
  ghost predicate MostUrgent(cs: seq<Condition>, ds: seq<string>, i: nat)
    requires i < |ds|
  {
    && Complaint(cs, ds[i]) != []
    && (forall j | 0 <= j < |ds| && Complaint(cs, ds[j]) != [] ::
          AtLeastAsUrgent(Complaint(cs, ds[i])[0], Complaint(cs, ds[j])[0]))
    && (forall j | 0 <= j < i && Complaint(cs, ds[j]) != [] ::
          !AtLeastAsUrgent(Complaint(cs, ds[j])[0], Complaint(cs, ds[i])[0]))
  }

  /** How the choice among a list follows from the choice among its tail. */
  lemma SelectedStep(cs: seq<Condition>, ds: seq<string>)
    requires ds != []
    ensures var c, rest := Complaint(cs, ds[0]), Selected(cs, ds[1..]);
            Selected(cs, ds) ==
            if c == [] then rest
            else if rest.None? || AtLeastAsUrgent(c[0], rest.value) then Some(c[0])
            else rest
  {
    hide Complaint, AtLeastAsUrgent;
    var c, others := Complaint(cs, ds[0]), Candidates(cs, ds[1..]);
    SortPermutes(Urgency(), others);
    if c != [] {
      assert c + others == [c[0]] + others && ([c[0]] + others)[1..] == others;
    } else {
      assert c + others == others;
    }
  }

  lemma {:induction false} NobodySelected(cs: seq<Condition>, ds: seq<string>)
    ensures Selected(cs, ds).None? <==> forall i | 0 <= i < |ds| :: Complaint(cs, ds[i]) == []
  {
    hide Complaint;
    if ds != [] {
      hide Selected;
      SelectedStep(cs, ds);
      NobodySelected(cs, ds[1..]);
      assert forall i | 0 < i < |ds| :: ds[i] == ds[1..][i - 1];
      assert forall i | 0 <= i < |ds| - 1 :: ds[1..][i] == ds[i + 1];
    }
  }

  /** The registration index that speaks: False before Unknown, then the latest transition, then registration order. */
  lemma {:induction false} MostUrgentSpeaks(cs: seq<Condition>, ds: seq<string>) returns (i: nat)
    requires Selected(cs, ds).Some?
    ensures i < |ds| && MostUrgent(cs, ds, i) && Complaint(cs, ds[i]) == [Selected(cs, ds).value]
  {
    hide Complaint, Candidates, StableSort;
    NobodySelected(cs, ds);
    SelectedStep(cs, ds);
    NobodySelected(cs, ds[1..]);
    assert forall j | 0 < j < |ds| :: ds[j] == ds[1..][j - 1];
    if Selected(cs, ds[1..]).None? {
      assert forall j | 0 < j < |ds| :: Complaint(cs, ds[j]) == [];
      return 0;
    }
    var k := MostUrgentSpeaks(cs, ds[1..]);
    if Complaint(cs, ds[0]) == [] || !AtLeastAsUrgent(Complaint(cs, ds[0])[0], Selected(cs, ds[1..]).value) {
      return k + 1;
    }
    return 0;
  }

  lemma SelectedIsMostUrgent(cs: seq<Condition>, ds: seq<string>)
    ensures Selected(cs, ds).None? <==> forall d | d in ds :: Complaint(cs, d) == []
    ensures Selected(cs, ds).Some? ==>
              exists i | 0 <= i < |ds| :: MostUrgent(cs, ds, i) && Complaint(cs, ds[i]) == [Selected(cs, ds).value]
  {
    hide Complaint, Selected, AtLeastAsUrgent;
    NobodySelected(cs, ds);
    if Selected(cs, ds).Some? {
      var i := MostUrgentSpeaks(cs, ds);
    }
  }

  /** The choice looks at nothing but the dependents' own complaints. */
  lemma {:induction false} CandidatesAgree(cs: seq<Condition>, cs': seq<Condition>, ds: seq<string>)
    requires forall d | d in ds :: Complaint(cs, d) == Complaint(cs', d)
    ensures Candidates(cs, ds) == Candidates(cs', ds)
  {
    if ds != [] {
      CandidatesAgree(cs, cs', ds[1..]);
    }
  }

  // ----- the operations on values -----

  /** What the happy condition becomes; `trigger` is the type whose change is being propagated. */
  function Recomputed(r: Registration, cs: seq<Condition>, trigger: string, now: Instant): seq<Condition> {
    var unhappy := Selected(cs, r.dependents);
    if unhappy.Some? then
      SetStatus(cs, Plain(r.happy, unhappy.value.status)
                    .(reason := unhappy.value.reason, message := unhappy.value.message), now)
    else if trigger != r.happy then
      SetStatus(cs, Plain(r.happy, ConditionTrue).(reason := ALL_HEALTHY), now)
    else cs
  }

  function AfterSet(r: Registration, cs: seq<Condition>, c: Condition, now: Instant): seq<Condition> {
    if Changes(cs, c) then Recomputed(r, SetStatus(cs, c, now), c.kind, now) else cs
  }

  /** Only the first entry of the type goes. */
  function RemoveFirst(cs: seq<Condition>, kind: string): seq<Condition> {
    if cs == [] then []
    else if cs[0].kind == kind then cs[1..]
    else [cs[0]] + RemoveFirst(cs[1..], kind)
  }

  function AfterClear(r: Registration, cs: seq<Condition>, kind: string, now: Instant): seq<Condition> {
    if Has(cs, kind) then Recomputed(r, RemoveFirst(cs, kind), kind, now) else cs
  }

  /** The position of a registered type: the happy condition first, then registration order. */
  function Priority(r: Registration, kind: string): Option<nat> {
    if kind == r.happy then Some(0)
    else if kind in r.dependents then Some(IndexIn(r.dependents, kind) + 1)
    else None
  }

  function IndexIn(ds: seq<string>, d: string): nat
    requires d in ds
  {
    if ds[0] == d then 0 else IndexIn(ds[1..], d) + 1
  }

  predicate ListedBefore(r: Registration, x: Condition, y: Condition) {
    match (Priority(r, x.kind), Priority(r, y.kind))
    case (Some(p), Some(q)) => p <= q
    case (Some(_), None) => true
    case (None, Some(_)) => false
    case (None, None) => Leq(x.kind, y.kind)
  }

  function ListOrder(r: Registration): (Condition, Condition) -> bool {
    (x, y) => ListedBefore(r, x, y)
  }

  function WithHappy(r: Registration, cs: seq<Condition>, now: Instant): seq<Condition> {
    if Has(cs, r.happy) then cs else SetStatus(cs, Plain(r.happy, ConditionUnknown), now)
  }

  function Seeded(cs: seq<Condition>, ds: seq<string>, status: Status, now: Instant): seq<Condition>
    decreases |ds|
  {
    if ds == [] then cs
    else Seeded(if Has(cs, ds[0]) then cs else SetStatus(cs, Plain(ds[0], status), now), ds[1..], status, now)
  }

  function SeedStatus(r: Registration, cs: seq<Condition>): Status {
    match Find(cs, r.happy)
    case Some(c) => if c.status == ConditionTrue then ConditionTrue else ConditionUnknown
    case None => ConditionUnknown
  }

  function AfterNew(r: Registration, cs: seq<Condition>, now: Instant): seq<Condition> {
    Seeded(WithHappy(r, cs, now), r.dependents, SeedStatus(r, cs), now)
  }

  datatype Op = Set(c: Condition) | Clear(kind: string) | Recompute(trigger: string) | Reset | Sort

  datatype Event = Event(op: Op, at: Instant)

  function Step(r: Registration, cs: seq<Condition>, e: Event): seq<Condition> {
    match e.op
    case Set(c) => AfterSet(r, cs, c, e.at)
    case Clear(kind) => AfterClear(r, cs, kind, e.at)
    case Recompute(trigger) => Recomputed(r, cs, trigger, e.at)
    case Reset => []
    case Sort => StableSort(ListOrder(r), cs)
  }

  function Run(r: Registration, cs: seq<Condition>, es: seq<Event>): seq<Condition>
    decreases |es|
  {
    if es == [] then cs else Run(r, Step(r, cs, es[0]), es[1..])
  }

  // ----- the class -----

  lemma {:induction false} RemoveFirstAt(cs: seq<Condition>, kind: string, i: nat)
    requires i < |cs| && cs[i].kind == kind && forall j | 0 <= j < i :: cs[j].kind != kind
    ensures RemoveFirst(cs, kind) == cs[..i] + cs[i + 1..]
    ensures Has(cs, kind)
  {
    if i > 0 {
      RemoveFirstAt(cs[1..], kind, i - 1);
      assert cs[..i] == [cs[0]] + cs[1..][..i - 1] && cs[1..][i..] == cs[i + 1..];
    }
  }

  method RemoveFirstCondition(accessor: StatusBlock, kind: string) returns (removed: bool)
    modifies accessor`conditions
    ensures removed <==> Has(old(accessor.conditions), kind)
    ensures accessor.conditions == if removed then RemoveFirst(old(accessor.conditions), kind)
              else old(accessor.conditions)
  {
    var conditions := accessor.conditions;
    var idx := IndexOfKind(conditions, kind);
    if idx == -1 {
      FirstFinds(OfKind(kind), conditions);
      return false;
    }
    RemoveFirstAt(conditions, kind, idx);
    accessor.conditions := conditions[..idx] + conditions[idx + 1..];
    return true;
  }

  class HappyManager {
    const accessor: StatusBlock
    const registration: Registration

    constructor (accessor: StatusBlock, happy: string, dependents: seq<string>, now: Instant)
      modifies accessor`conditions
      ensures this.accessor == accessor && registration == Registration(happy, Kept(happy, dependents))
      ensures accessor.conditions == AfterNew(registration, old(accessor.conditions), now)
    {
      this.accessor := accessor;
      var unique := Deduplicate(happy, dependents);
      registration := Registration(happy, unique);
      new;
      InitializeConditions(now);
    }

    method InitializeConditions(now: Instant)
      modifies accessor`conditions
      ensures accessor.conditions == AfterNew(registration, old(accessor.conditions), now)
    {
      var happy := Find(accessor.conditions, registration.happy);
      if happy.None? {
        happy := Some(Plain(registration.happy, ConditionUnknown));
        var _ := SetStatusCondition(accessor, happy.value, now);
      }
      var status := ConditionUnknown;
      if happy.value.status == ConditionTrue {
        status := ConditionTrue;
      }
      var ds := registration.dependents;
      for i := 0 to |ds|
        invariant Seeded(accessor.conditions, ds[i..], status, now)
                    == AfterNew(registration, old(accessor.conditions), now)
      {
        assert ds[i..][0] == ds[i] && ds[i..][1..] == ds[i + 1..];
        if Find(accessor.conditions, ds[i]).Some? {
          continue;
        }
        var _ := SetStatusCondition(accessor, Plain(ds[i], status), now);
      }
    }

    method SetCondition(condition: Condition, now: Instant)
      modifies accessor`conditions
      ensures accessor.conditions == AfterSet(registration, old(accessor.conditions), condition, now)
    {
      var changed := SetStatusCondition(accessor, condition, now);
      if !changed {
        UnchangedWrite(old(accessor.conditions), condition, now);
        return;
      }
      RecomputeHappiness(condition.kind, now);
    }

    method ClearCondition(kind: string, now: Instant)
      modifies accessor`conditions
      ensures accessor.conditions == AfterClear(registration, old(accessor.conditions), kind, now)
    {
      var removed := RemoveFirstCondition(accessor, kind);
      if !removed {
        return;
      }
      RecomputeHappiness(kind, now);
    }

    method RecomputeHappiness(trigger: string, now: Instant)
      modifies accessor`conditions
      ensures accessor.conditions == Recomputed(registration, old(accessor.conditions), trigger, now)
    {
      var unhappy := FindUnhappyDependent();
      if unhappy.Some? {
        var c := Plain(registration.happy, unhappy.value.status)
                 .(reason := unhappy.value.reason, message := unhappy.value.message);
        var _ := SetStatusCondition(accessor, c, now);
      } else if trigger != registration.happy {
        var _ := SetStatusCondition(accessor, Plain(registration.happy, ConditionTrue).(reason := ALL_HEALTHY), now);
      }
    }

    /** The loop of the search: the unhappy dependents in registration order. */
    method UnhappyCandidates() returns (candidates: seq<Condition>)
      ensures candidates == Candidates(accessor.conditions, registration.dependents)
    {
      var ds, cs := registration.dependents, accessor.conditions;
      candidates := [];
      hide Candidates, First, Find;
      NoCandidates(cs);
      for i := 0 to |ds|
        invariant candidates == Candidates(cs, ds[..i])
      {
        assert ds[..i + 1] == ds[..i] + [ds[i]];
        NextCandidate(cs, ds[..i], ds[i]);
        var cond := Find(cs, ds[i]);
        if cond.None? {
          continue;
        }
        if cond.value.severity == SeverityInfo {
          continue;
        }
        if cond.value.status == ConditionFalse || cond.value.status == ConditionUnknown {
          candidates := candidates + [cond.value];
        }
      }
      assert ds[..|ds|] == ds;
    }

    method FindUnhappyDependent() returns (unhappy: Option<Condition>)
      ensures unhappy == Selected(accessor.conditions, registration.dependents)
    {
      var candidates := UnhappyCandidates();
      SortPermutes(Urgency(), candidates);
      if |candidates| == 0 {
        return None;
      }
      return Some(StableSort(Urgency(), candidates)[0]);
    }

    method Reset()
      modifies accessor`conditions
      ensures accessor.conditions == []
    {
      accessor.conditions := [];
    }

    method Sort()
      modifies accessor`conditions
      ensures accessor.conditions == StableSort(ListOrder(registration), old(accessor.conditions))
    {
      if |accessor.conditions| == 0 {
        return;
      }
      accessor.conditions := StableSort(ListOrder(registration), accessor.conditions);
    }

    method PerformAll(es: seq<Event>)
      modifies accessor`conditions
      ensures accessor.conditions == Run(registration, old(accessor.conditions), es)
    {
      for i := 0 to |es|
        invariant Run(registration, accessor.conditions, es[i..]) == Run(registration, old(accessor.conditions), es)
      {
        assert es[i..][0] == es[i] && es[i..][1..] == es[i + 1..];
        match es[i].op
        case Set(c) => SetCondition(c, es[i].at);
        case Clear(kind) => ClearCondition(kind, es[i].at);
        case Recompute(trigger) => RecomputeHappiness(trigger, es[i].at);
        case Reset => Reset();
        case Sort => Sort();
      }
    }
  }

  // ----- what every run keeps -----

  predicate Echoes(c: Condition, d: Condition) {
    c.status == d.status && c.reason == d.reason && c.message == d.message
  }

  /** Whenever a dependent is unhappy, the happy condition repeats the most urgent one. */
  predicate Mirrors(r: Registration, cs: seq<Condition>) {
    var unhappy, happy := Selected(cs, r.dependents), Find(cs, r.happy);
    unhappy.Some? ==> happy.Some? && Echoes(happy.value, unhappy.value)
  }

  predicate Registered(r: Registration) {
    r.happy !in r.dependents
  }

  lemma WritingHappyKeepsSelection(r: Registration, cs: seq<Condition>, c: Condition, now: Instant)
    requires Registered(r) && c.kind == r.happy
    ensures Selected(SetStatus(cs, c, now), r.dependents) == Selected(cs, r.dependents)
  {
    SetIsRead(cs, c, now);
    CandidatesAgree(SetStatus(cs, c, now), cs, r.dependents);
  }

  lemma RecomputeMirrors(r: Registration, cs: seq<Condition>, trigger: string, now: Instant)
    requires Registered(r)
    ensures Mirrors(r, Recomputed(r, cs, trigger, now))
    ensures Selected(Recomputed(r, cs, trigger, now), r.dependents) == Selected(cs, r.dependents)
  {
    var unhappy := Selected(cs, r.dependents);
    var c := if unhappy.Some? then Plain(r.happy, unhappy.value.status)
                                   .(reason := unhappy.value.reason, message := unhappy.value.message)
             else Plain(r.happy, ConditionTrue).(reason := ALL_HEALTHY);
    SetIsRead(cs, c, now);
    WritingHappyKeepsSelection(r, cs, c, now);
  }

  lemma {:induction false} InsertKeepsFind(
      le: (Condition, Condition) -> bool, x: Condition, cs: seq<Condition>, kind: string)
    requires forall y: Condition, z: Condition | y.kind == z.kind :: le(y, z)
    ensures Find(Insert(le, x, cs), kind) == if x.kind == kind then Some(x) else Find(cs, kind)
  {
    if cs == [] || le(x, cs[0]) {
      assert Insert(le, x, cs) == [x] + cs;
      FirstCons(OfKind(kind), x, cs);
    } else {
      InsertKeepsFind(le, x, cs[1..], kind);
      FirstCons(OfKind(kind), cs[0], Insert(le, x, cs[1..]));
    }
  }

  /** Sorting stably by type shows the same entry for every type. */
  lemma {:induction false} SortKeepsEntries(le: (Condition, Condition) -> bool, cs: seq<Condition>, kind: string)
    requires forall y: Condition, z: Condition | y.kind == z.kind :: le(y, z)
    ensures Find(StableSort(le, cs), kind) == Find(cs, kind)
  {
    if cs != [] {
      SortKeepsEntries(le, cs[1..], kind);
      InsertKeepsFind(le, cs[0], StableSort(le, cs[1..]), kind);
    }
  }

  lemma SortKeepsMirror(r: Registration, cs: seq<Condition>)
    ensures Mirrors(r, StableSort(ListOrder(r), cs)) == Mirrors(r, cs)
  {
    forall kind { SortKeepsEntries(ListOrder(r), cs, kind); }
    CandidatesAgree(StableSort(ListOrder(r), cs), cs, r.dependents);
  }

  lemma {:induction false} NothingSelected(ds: seq<string>)
    ensures Selected([], ds) == None
  {
    SelectedIsMostUrgent([], ds);
  }

  lemma StepKeepsMirror(r: Registration, cs: seq<Condition>, e: Event)
    requires Registered(r) && Mirrors(r, cs)
    ensures Mirrors(r, Step(r, cs, e))
  {
    match e.op
    case Set(c) => RecomputeMirrors(r, SetStatus(cs, c, e.at), c.kind, e.at);
    case Clear(kind) => RecomputeMirrors(r, RemoveFirst(cs, kind), kind, e.at);
    case Recompute(trigger) => RecomputeMirrors(r, cs, trigger, e.at);
    case Reset => NothingSelected(r.dependents);
    case Sort => SortKeepsMirror(r, cs);
  }

  lemma {:induction false} RunKeepsMirror(r: Registration, cs: seq<Condition>, es: seq<Event>)
    requires Registered(r) && Mirrors(r, cs)
    ensures Mirrors(r, Run(r, cs, es))
    decreases |es|
  {
    if es != [] {
      StepKeepsMirror(r, cs, es[0]);
      RunKeepsMirror(r, Step(r, cs, es[0]), es[1..]);
    }
  }

  /** Seeding with silent Unknowns leaves nothing but silent Unknowns to mirror. */
  predicate Silent(cs: seq<Condition>) {
    forall c | c in cs :: c.status == ConditionUnknown && c.reason == "" && c.message == ""
  }

  lemma {:induction false} SeedingIsSilent(cs: seq<Condition>, ds: seq<string>, happy: string, now: Instant)
    requires Silent(cs) && Has(cs, happy)
    ensures var s := Seeded(cs, ds, ConditionUnknown, now); Silent(s) && Has(s, happy)
    decreases |ds|
  {
    if ds != [] {
      if Has(cs, ds[0]) {
        SeedingIsSilent(cs, ds[1..], happy, now);
      } else {
        var c := Plain(ds[0], ConditionUnknown);
        SetIsRead(cs, c, now);
        UpsertAddsAtMost(cs, Stamped(c, now));
        SeedingIsSilent(SetStatus(cs, c, now), ds[1..], happy, now);
      }
    }
  }

  lemma {:induction false} UpsertAddsAtMost(cs: seq<Condition>, n: Condition)
    requires !Has(cs, n.kind)
    ensures forall c | c in Upsert(cs, n) :: c in cs || c == n
  {
    if cs != [] {
      UpsertAddsAtMost(cs[1..], n);
    }
  }

  lemma FoundIsListed(cs: seq<Condition>, kind: string)
    ensures Has(cs, kind) ==> Find(cs, kind).value in cs
  {
    FirstFinds(OfKind(kind), cs);
  }

  lemma SilentMirrors(r: Registration, cs: seq<Condition>)
    requires Silent(cs) && Has(cs, r.happy)
    ensures Mirrors(r, cs)
  {
    SelectedIsMostUrgent(cs, r.dependents);
    if Selected(cs, r.dependents).Some? {
      var i :| 0 <= i < |r.dependents| && MostUrgent(cs, r.dependents, i)
               && Complaint(cs, r.dependents[i]) == [Selected(cs, r.dependents).value];
      FoundIsListed(cs, r.dependents[i]);
      FoundIsListed(cs, r.happy);
    }
  }

  /**
   * From an empty object onwards, after any operations at any times: while some
   * dependent of Error severity is False or Unknown, the happy condition is
   * present and repeats the most urgent such dependent.
   */
  lemma HappyMirrorsDependents(happy: string, dependents: seq<string>, now: Instant, es: seq<Event>)
    ensures var r := Registration(happy, Kept(happy, dependents));
            Mirrors(r, Run(r, AfterNew(r, [], now), es))
  {
    var r := Registration(happy, Kept(happy, dependents));
    KeptLists(happy, dependents);
    var start := WithHappy(r, [], now);
    assert start == [Stamped(Plain(happy, ConditionUnknown), now)];
    FirstCons(OfKind(happy), start[0], []);
    SeedingIsSilent(start, r.dependents, happy, now);
    SilentMirrors(r, AfterNew(r, [], now));
    RunKeepsMirror(r, AfterNew(r, [], now), es);
  }

  /**
   * A caller's own write to the happy condition sticks exactly when no dependent
   * is unhappy, or when it says what the most urgent one says anyway.
   */
  lemma HappyOverrideSticksExactlyWhen(r: Registration, cs: seq<Condition>, c: Condition, now: Instant)
    requires Registered(r) && Mirrors(r, cs) && c.kind == r.happy
    ensures var unhappy, after := Selected(cs, r.dependents), Find(AfterSet(r, cs, c, now), r.happy);
            after.Some? && (Echoes(after.value, c) <==> unhappy.None? || Echoes(unhappy.value, c))
  {
    SetIsRead(cs, c, now);
    WritingHappyKeepsSelection(r, cs, c, now);
    RecomputeMirrors(r, SetStatus(cs, c, now), c.kind, now);
  }

  /** In particular marking the happy condition True never hides an unhappy dependent. */
  lemma MarkTrueNeverSticks(r: Registration, cs: seq<Condition>, c: Condition, now: Instant)
    requires Registered(r) && Mirrors(r, cs) && c.kind == r.happy && c.status == ConditionTrue
    requires Selected(cs, r.dependents).Some?
    ensures var after := Find(AfterSet(r, cs, c, now), r.happy);
            && after.Some? && after.value.status != ConditionTrue
            && Echoes(after.value, Find(cs, r.happy).value)
  {
    HappyOverrideSticksExactlyWhen(r, cs, c, now);
    SetIsRead(cs, c, now);
    RecomputeMirrors(r, SetStatus(cs, c, now), c.kind, now);
    WritingHappyKeepsSelection(r, cs, c, now);
    SelectedIsMostUrgent(cs, r.dependents);
  }

  /** A changed dependent leaves the happy condition True exactly when nothing is left to complain about. */
  lemma HappyTrueExactlyWhen(r: Registration, cs: seq<Condition>, c: Condition, now: Instant)
    requires Registered(r) && c.kind != r.happy && Changes(cs, c)
    ensures var after := AfterSet(r, cs, c, now);
            && Has(after, r.happy)
            && (Find(after, r.happy).value.status == ConditionTrue <==>
                forall d | d in r.dependents :: Complaint(SetStatus(cs, c, now), d) == [])
  {
    var mid := SetStatus(cs, c, now);
    SelectedIsMostUrgent(mid, r.dependents);
    RecomputeMirrors(r, mid, c.kind, now);
    SetIsRead(mid, Plain(r.happy, ConditionTrue).(reason := ALL_HEALTHY), now);
  }

  // ----- the operations, from the list -----

  /** The entry at `i` is what its type shows, is not informational, and is False or Unknown. */
  ghost predicate Complains(cs: seq<Condition>, kind: string, i: int) {
    && IsFirst(cs, kind, i)
    && cs[i].severity != SeverityInfo && cs[i].status in {ConditionFalse, ConditionUnknown}
  }

  /** Of two complaints the False one counts, then the later one, then the one registered first. */
  predicate Outweighs(x: Condition, a: int, y: Condition, b: int) {
    || (x.status == ConditionFalse && y.status == ConditionUnknown)
    || (x.status == y.status && x.lastTransitionTime > y.lastTransitionTime)
    || (x.status == y.status && x.lastTransitionTime == y.lastTransitionTime && a <= b)
  }

  /** The entry at `i`, of the a-th registered dependent, outweighs every other complaint. */
  ghost predicate Speaks(cs: seq<Condition>, ds: seq<string>, a: int, i: int) {
    && 0 <= a < |ds| && Complains(cs, ds[a], i)
    && forall b, j | 0 <= b < |ds| && Complains(cs, ds[b], j) :: Outweighs(cs[i], a, cs[j], b)
  }

  lemma ComplaintComplains(cs: seq<Condition>, kind: string)
    ensures Complaint(cs, kind) != [] <==> exists i :: Complains(cs, kind, i)
    ensures forall i | Complains(cs, kind, i) :: Complaint(cs, kind) == [cs[i]]
  {
    FindIsFirst(cs, kind);
    if i :| IsFirst(cs, kind, i) {
      assert Complaint(cs, kind) != [] ==> Complains(cs, kind, i);
    }
  }

  lemma SpeakerIsSelected(cs: seq<Condition>, ds: seq<string>)
    ensures Selected(cs, ds).None? <==> forall a, i | 0 <= a < |ds| :: !Complains(cs, ds[a], i)
    ensures Selected(cs, ds).Some? ==> exists a, i :: Speaks(cs, ds, a, i)
    ensures forall a, i | Speaks(cs, ds, a, i) :: Selected(cs, ds) == Some(cs[i])
  {
    hide Selected, Complains;
    NobodySelected(cs, ds);
    forall a | 0 <= a < |ds| ensures Complaint(cs, ds[a]) != [] <==> exists i :: Complains(cs, ds[a], i) {
      ComplaintComplains(cs, ds[a]);
    }
    if Selected(cs, ds).Some? {
      var a := MostUrgentSpeaks(cs, ds);
      ComplaintComplains(cs, ds[a]);
      var i :| Complains(cs, ds[a], i);
      MostUrgentOutweighs(cs, ds, a, i);
      forall b, j | Speaks(cs, ds, b, j) ensures j == i {
        OnlyOneOutweighs(cs, ds, a, i, b, j);
      }
    }
  }

  lemma MostUrgentOutweighs(cs: seq<Condition>, ds: seq<string>, a: nat, i: int)
    requires a < |ds| && MostUrgent(cs, ds, a) && Complains(cs, ds[a], i)
    ensures Speaks(cs, ds, a, i) && Complaint(cs, ds[a]) == [cs[i]]
  {
    hide Complaint;
    ComplaintComplains(cs, ds[a]);
    forall b, j | 0 <= b < |ds| && Complains(cs, ds[b], j) ensures Outweighs(cs[i], a, cs[j], b) {
      ComplaintComplains(cs, ds[b]);
    }
  }

  lemma OnlyOneOutweighs(cs: seq<Condition>, ds: seq<string>, a: int, i: int, b: int, j: int)
    requires Speaks(cs, ds, a, i) && Speaks(cs, ds, b, j)
    ensures a == b && 0 <= i == j < |cs|
  {
    assert Outweighs(cs[i], a, cs[j], b) && Outweighs(cs[j], b, cs[i], a);
    assert a == b;
    assert IsFirst(cs, ds[a], i) && IsFirst(cs, ds[a], j);
  }

  /**
   * A recomputation: the happy condition repeats status, reason and message of the
   * complaint that outweighs the others; with none it becomes True, unless its own
   * change is what is being propagated.
   */
  lemma RecomputeSays(r: Registration, cs: seq<Condition>, trigger: string, now: Instant)
    ensures forall a, i | Speaks(cs, r.dependents, a, i) ::
              IsWritten(cs,
                        Condition(r.happy, cs[i].status, 0, 0, cs[i].reason, cs[i].message, SeverityError, None),
                        now, Recomputed(r, cs, trigger, now))
    ensures (forall a, i :: !Speaks(cs, r.dependents, a, i)) ==>
              && (forall d, i | d in r.dependents :: !Complains(cs, d, i))
              && (trigger == r.happy ==> Recomputed(r, cs, trigger, now) == cs)
              && (trigger != r.happy ==>
                    IsWritten(cs,
                              Condition(r.happy, ConditionTrue, 0, 0, "AllDependentsHealthy", "", SeverityError, None),
                              now, Recomputed(r, cs, trigger, now)))
  {
    hide Complains, IsWritten, Selected, SetStatus;
    SpeakerIsSelected(cs, r.dependents);
    forall c { SetStatusWrites(cs, c, now); }
  }

  /** A write that leaves the list as it was is not propagated; any other is. */
  lemma SetSays(r: Registration, cs: seq<Condition>, c: Condition, now: Instant)
    ensures exists written :: IsWritten(cs, c, now, written) &&
              AfterSet(r, cs, c, now) == if written == cs then cs else Recomputed(r, written, c.kind, now)
  {
    hide Recomputed;
    SetStatusWrites(cs, c, now);
    var written := SetStatus(cs, c, now);
    if !Changes(cs, c) {
      UnchangedWrite(cs, c, now);
    } else if i :| IsFirst(cs, c.kind, i) && !Agrees(cs[i], c) {
      hide IsFirst;
      assert Agrees(written[i], c);
    } else {
      assert |written| == |cs| + 1;
    }
  }

  /** Clearing takes out the entry the type shows and propagates that; a missing type changes nothing. */
  lemma {:induction false} ClearSays(r: Registration, cs: seq<Condition>, kind: string, now: Instant)
    ensures (forall c | c in cs :: c.kind != kind) ==> AfterClear(r, cs, kind, now) == cs
    ensures forall i | IsFirst(cs, kind, i) ::
              AfterClear(r, cs, kind, now) == Recomputed(r, cs[..i] + cs[i + 1..], kind, now)
  {
    hide Recomputed;
    FindIsFirst(cs, kind);
    forall i | IsFirst(cs, kind, i) ensures Has(cs, kind) && RemoveFirst(cs, kind) == cs[..i] + cs[i + 1..] {
      RemoveFirstAt(cs, kind, i);
    }
  }

  function Fresh(kind: string, status: Status, now: Instant): Condition {
    Condition(kind, status, 0, now, "", "", SeverityError, None)
  }

  function AllFresh(ds: seq<string>, status: Status, now: Instant): seq<Condition> {
    seq(|ds|, i requires 0 <= i < |ds| => Fresh(ds[i], status, now))
  }

  function MissingFrom(cs: seq<Condition>): string -> bool {
    (d: string) => !Has(cs, d)
  }

  lemma FreshIsAppended(cs: seq<Condition>, d: string, status: Status, now: Instant)
    requires !Has(cs, d)
    ensures SetStatus(cs, Plain(d, status), now) == cs + [Fresh(d, status, now)]
    ensures forall k :: Has(cs + [Fresh(d, status, now)], k) <==> Has(cs, k) || k == d
  {
    FindIsFirst(cs, d);
    UpsertWrites(cs, Stamped(Plain(d, status), now));
    SetIsRead(cs, Plain(d, status), now);
  }

  lemma {:induction false} SeededAppends(cs: seq<Condition>, ds: seq<string>, status: Status, now: Instant)
    requires Distinct(ds)
    ensures Seeded(cs, ds, status, now) == cs + AllFresh(Filter(MissingFrom(cs), ds), status, now)
    decreases |ds|
  {
    if ds != [] {
      var d, rest := ds[0], ds[1..];
      if Has(cs, d) {
        SeededAppends(cs, rest, status, now);
      } else {
        FreshIsAppended(cs, d, status, now);
        var next := cs + [Fresh(d, status, now)];
        hide Has, Fresh, SetStatus;
        SeededAppends(next, rest, status, now);
        OthersStayMissing(cs, next, d, rest);
        AllFreshCons(d, Filter(MissingFrom(cs), rest), status, now);
      }
    }
  }

  lemma OthersStayMissing(cs: seq<Condition>, next: seq<Condition>, d: string, rest: seq<string>)
    requires d !in rest && forall k :: Has(next, k) <==> Has(cs, k) || k == d
    ensures Filter(MissingFrom(next), rest) == Filter(MissingFrom(cs), rest)
  {
    FilterAgree(MissingFrom(next), MissingFrom(cs), rest);
  }

  lemma AllFreshCons(d: string, ds: seq<string>, status: Status, now: Instant)
    ensures AllFresh([d] + ds, status, now) == [Fresh(d, status, now)] + AllFresh(ds, status, now)
  {
  }

  /** No entry is of this type. */
  predicate Lacks(cs: seq<Condition>, kind: string) {
    forall c | c in cs :: c.kind != kind
  }

  /**
   * A new manager keeps the list and appends what is missing: the happy condition
   * as Unknown, then the dependents in registration order, as True where the list
   * showed a True happy condition and as Unknown otherwise.
   */
  lemma NewSays(r: Registration, cs: seq<Condition>, now: Instant) returns (at: seq<nat>)
    requires Registered(r) && Distinct(r.dependents)
    ensures Positions(at, |r.dependents|)
    ensures forall a: nat | a < |r.dependents| :: a in at <==> Lacks(cs, r.dependents[a])
    ensures var happyIsTrue := exists i :: IsFirst(cs, r.happy, i) && cs[i].status == ConditionTrue;
            var status := if happyIsTrue then ConditionTrue else ConditionUnknown;
            AfterNew(r, cs, now) ==
            cs + (if Lacks(cs, r.happy) then [Fresh(r.happy, ConditionUnknown, now)] else [])
            + seq(|at|, k requires 0 <= k < |at| => Fresh(r.dependents[at[k]], status, now))
  {
    var start, ds, status := WithHappy(r, cs, now), r.dependents, SeedStatus(r, cs);
    at := FilterKeepsOrder(MissingFrom(start), ds);
    HappyIsThere(r, cs, now);
    SeededAppends(start, ds, status, now);
    hide WithHappy, SeedStatus, Filter, Has, Fresh, Seeded;
    forall a: nat | a < |ds| ensures a in at <==> Lacks(cs, ds[a]) {
      assert ds[a] in ds;
    }
    assert AllFresh(Filter(MissingFrom(start), ds), status, now)
        == seq(|at|, k requires 0 <= k < |at| => Fresh(ds[at[k]], status, now));
  }

  lemma HappyIsThere(r: Registration, cs: seq<Condition>, now: Instant)
    ensures WithHappy(r, cs, now) ==
            cs + if Lacks(cs, r.happy) then [Fresh(r.happy, ConditionUnknown, now)] else []
    ensures forall k | k != r.happy :: Has(WithHappy(r, cs, now), k) <==> !Lacks(cs, k)
    ensures SeedStatus(r, cs) ==
            if exists i :: IsFirst(cs, r.happy, i) && cs[i].status == ConditionTrue then ConditionTrue
            else ConditionUnknown
  {
    forall k { FindIsFirst(cs, k); }
    if !Has(cs, r.happy) {
      FreshIsAppended(cs, r.happy, ConditionUnknown, now);
    }
  }

  /** `x` may be listed before `y`: the happy condition, then the dependents as registered, then the rest by name. */
  ghost predicate MayPrecede(r: Registration, x: string, y: string) {
    && (y == r.happy ==> x == r.happy)
    && (forall b | 0 <= b < |r.dependents| && r.dependents[b] == y ::
          x == r.happy || exists a :: 0 <= a <= b && r.dependents[a] == x)
    && (x != r.happy && x !in r.dependents && y != r.happy && y !in r.dependents ==> Leq(x, y))
  }

  lemma {:induction false} IndexInIsFirst(ds: seq<string>, d: string, b: nat)
    requires b < |ds| && ds[b] == d
    ensures IndexIn(ds, d) <= b
  {
    if ds[0] != d {
      IndexInIsFirst(ds[1..], d, b - 1);
    }
  }

  lemma ListedBeforeMayPrecede(r: Registration, x: Condition, y: Condition)
    requires Registered(r) && ListedBefore(r, x, y)
    ensures MayPrecede(r, x.kind, y.kind)
  {
    var ds := r.dependents;
    forall b | 0 <= b < |ds| && ds[b] == y.kind && x.kind != r.happy
      ensures exists a :: 0 <= a <= b && ds[a] == x.kind
    {
      IndexInIsFirst(ds, y.kind, b);
      IndexInFinds(ds, x.kind);
      assert ds[IndexIn(ds, x.kind)] == x.kind;
    }
  }

  lemma SortKeepsEach(r: Registration, cs: seq<Condition>, kind: string)
    ensures Filter(OfKind(kind), StableSort(ListOrder(r), cs)) == Filter(OfKind(kind), cs)
  {
    ListOrderIsTotal(r);
    SortThenFilter(ListOrder(r), OfKind(kind), cs);
    FilterMembers(OfKind(kind), cs);
    var same := Filter(OfKind(kind), cs);
    assert forall c | c in same :: OfKind(kind)(c) && c.kind == kind;
    assert Sorted(ListOrder(r), same) by {
      forall i, j | 0 <= i < j < |same| ensures ListOrder(r)(same[i], same[j]) {
        assert same[i] in same && same[j] in same;
      }
    }
    SortOfSorted(ListOrder(r), same);
  }

  /** Sorting only moves entries, into that order, and keeps entries of one type as they were. */
  lemma SortSays(r: Registration, cs: seq<Condition>)
    requires Registered(r)
    ensures multiset(StableSort(ListOrder(r), cs)) == multiset(cs)
    ensures forall kind :: Filter(OfKind(kind), StableSort(ListOrder(r), cs)) == Filter(OfKind(kind), cs)
    ensures var out := StableSort(ListOrder(r), cs);
            forall i, j | 0 <= i < j < |out| :: MayPrecede(r, out[i].kind, out[j].kind)
  {
    var out := StableSort(ListOrder(r), cs);
    ListOrderIsTotal(r);
    SortPermutes(ListOrder(r), cs);
    SortSorts(ListOrder(r), cs);
    hide StableSort, Filter, MayPrecede;
    forall kind {
      SortKeepsEach(r, cs, kind);
    }
    forall i, j | 0 <= i < j < |out| ensures MayPrecede(r, out[i].kind, out[j].kind) {
      assert ListOrder(r)(out[i], out[j]);
      ListedBeforeMayPrecede(r, out[i], out[j]);
    }
  }

  // ----- a new manager over an old list -----

  /** The happy condition a new manager finds or makes. */
  function HappyOf(r: Registration, cs: seq<Condition>, now: Instant): Condition {
    match Find(cs, r.happy) case Some(c) => c case None => Stamped(Plain(r.happy, ConditionUnknown), now)
  }

  /** What each dependent will complain of: a missing one of being Unknown since now, unless happy is True. */
  function Foreseen(r: Registration, cs: seq<Condition>, now: Instant, kind: string): (c: seq<Condition>)
    ensures |c| <= 1
  {
    if Has(cs, kind) then Complaint(cs, kind)
    else if HappyOf(r, cs, now).status == ConditionTrue then []
    else [Stamped(Plain(kind, ConditionUnknown), now)]
  }

  function AllForeseen(r: Registration, cs: seq<Condition>, now: Instant, ds: seq<string>): seq<Condition> {
    if ds == [] then [] else Foreseen(r, cs, now, ds[0]) + AllForeseen(r, cs, now, ds[1..])
  }

  lemma {:induction false} SeededFinds(cs: seq<Condition>, ds: seq<string>, status: Status, now: Instant, kind: string)
    ensures Find(Seeded(cs, ds, status, now), kind) ==
            if Has(cs, kind) || kind !in ds then Find(cs, kind) else Some(Stamped(Plain(kind, status), now))
    decreases |ds|
  {
    if ds != [] {
      var rest := ds[1..];
      assert kind in ds <==> kind == ds[0] || kind in rest;
      if Has(cs, ds[0]) {
        SeededFinds(cs, rest, status, now, kind);
      } else {
        var c := Plain(ds[0], status);
        FindAfterUpsert(cs, Stamped(c, now), kind);
        SeededFinds(SetStatus(cs, c, now), rest, status, now, kind);
      }
    }
  }

  lemma NewReads(r: Registration, cs: seq<Condition>, now: Instant, kind: string)
    requires Registered(r)
    ensures Find(AfterNew(r, cs, now), r.happy) == Some(HappyOf(r, cs, now))
    ensures kind in r.dependents ==> Complaint(AfterNew(r, cs, now), kind) == Foreseen(r, cs, now, kind)
  {
    FindAfterUpsert(cs, Stamped(Plain(r.happy, ConditionUnknown), now), r.happy);
    FindAfterUpsert(cs, Stamped(Plain(r.happy, ConditionUnknown), now), kind);
    SeededFinds(WithHappy(r, cs, now), r.dependents, SeedStatus(r, cs), now, r.happy);
    SeededFinds(WithHappy(r, cs, now), r.dependents, SeedStatus(r, cs), now, kind);
  }

  lemma {:induction false} NewCandidates(r: Registration, cs: seq<Condition>, now: Instant, ds: seq<string>)
    requires Registered(r) && forall d | d in ds :: d in r.dependents
    ensures Candidates(AfterNew(r, cs, now), ds) == AllForeseen(r, cs, now, ds)
  {
    hide AfterNew, Foreseen, Complaint;
    if ds != [] {
      assert ds[0] in ds;
      NewReads(r, cs, now, ds[0]);
      NewCandidates(r, cs, now, ds[1..]);
    }
  }

  /**
   * A new manager over any list mirrors its dependents if and only if the happy
   * condition already says what the most urgent of the complaints foreseen says,
   * or none is foreseen.
   */
  lemma NewManagerMirrorsExactlyWhen(r: Registration, cs: seq<Condition>, now: Instant)
    requires Registered(r)
    ensures Mirrors(r, AfterNew(r, cs, now)) <==>
            var foreseen := StableSort(Urgency(), AllForeseen(r, cs, now, r.dependents));
            foreseen == [] || Echoes(HappyOf(r, cs, now), foreseen[0])
  {
    hide AfterNew, Candidates, AllForeseen, HappyOf, StableSort;
    NewReads(r, cs, now, "");
    NewCandidates(r, cs, now, r.dependents);
  }

  lemma {:induction false} ForeseenAsNow(r: Registration, cs: seq<Condition>, now: Instant, ds: seq<string>)
    requires (forall d | d in ds :: Has(cs, d)) || HappyOf(r, cs, now).status == ConditionTrue
    ensures AllForeseen(r, cs, now, ds) == Candidates(cs, ds)
  {
    if ds != [] {
      hide HappyOf;
      assert ds[0] in ds && forall d | d in ds[1..] :: d in ds;
      ForeseenAsNow(r, cs, now, ds[1..]);
    }
  }

  /** With nothing missing a new manager mirrors if and only if the list already does. */
  lemma CompleteListMirrorsAsBefore(r: Registration, cs: seq<Condition>, now: Instant)
    requires Registered(r) && Has(cs, r.happy) && forall d | d in r.dependents :: Has(cs, d)
    ensures Mirrors(r, AfterNew(r, cs, now)) <==> Mirrors(r, cs)
  {
    hide AfterNew, Candidates, AllForeseen, StableSort;
    NewManagerMirrorsExactlyWhen(r, cs, now);
    ForeseenAsNow(r, cs, now, r.dependents);
  }

  /** A True happy condition is believed: a new manager mirrors if and only if no dependent complains already. */
  lemma TrueHappyMirrorsExactlyWhen(r: Registration, cs: seq<Condition>, now: Instant)
    requires Registered(r) && Has(cs, r.happy) && Find(cs, r.happy).value.status == ConditionTrue
    ensures Mirrors(r, AfterNew(r, cs, now)) <==> forall d | d in r.dependents :: Complaint(cs, d) == []
  {
    hide AfterNew, AllForeseen;
    NewManagerMirrorsExactlyWhen(r, cs, now);
    ForeseenAsNow(r, cs, now, r.dependents);
    SelectedIsMostUrgent(cs, r.dependents);
    hide Candidates, StableSort;
    if Selected(cs, r.dependents).Some? {
      var i := MostUrgentSpeaks(cs, r.dependents);
      assert Unhappy(Complaint(cs, r.dependents[i])[0]);
    }
  }

  /**
   * Seeding a missing dependent as Unknown: where no complaint is False or as
   * recent as now, the seeded one is selected, and the happy condition has to be
   * a silent Unknown as well.
   */
  lemma SeededSilenceSpeaks(r: Registration, cs: seq<Condition>, now: Instant, d: string)
    requires Registered(r) && HappyOf(r, cs, now).status != ConditionTrue
    requires d in r.dependents && !Has(cs, d)
    requires forall e | e in r.dependents && Complaint(cs, e) != [] ::
               Complaint(cs, e)[0].status == ConditionUnknown && Complaint(cs, e)[0].lastTransitionTime < now
    ensures Mirrors(r, AfterNew(r, cs, now)) <==>
            Echoes(HappyOf(r, cs, now), Plain(r.happy, ConditionUnknown))
  {
    var after := AfterNew(r, cs, now);
    NewReads(r, cs, now, d);
    hide AfterNew, HappyOf, Selected;
    SelectedIsMostUrgent(after, r.dependents);
    assert Complaint(after, d) != [];
    var i := MostUrgentSpeaks(after, r.dependents);
    NewReads(r, cs, now, r.dependents[i]);
    var j :| 0 <= j < |r.dependents| && r.dependents[j] == d;
    assert AtLeastAsUrgent(Complaint(after, r.dependents[i])[0], Complaint(after, r.dependents[j])[0]);
    assert !Has(cs, r.dependents[i]);
  }

  /** With a False dependent of Error severity the most urgent False one has to be mirrored already. */
  lemma FalseDependentSpeaks(r: Registration, cs: seq<Condition>, now: Instant)
    requires Registered(r)
    requires Selected(cs, r.dependents).Some? && Selected(cs, r.dependents).value.status == ConditionFalse
    ensures Mirrors(r, AfterNew(r, cs, now)) <==> Echoes(HappyOf(r, cs, now), Selected(cs, r.dependents).value)
  {
    var after := AfterNew(r, cs, now);
    NewReads(r, cs, now, "");
    hide AfterNew, HappyOf, Selected, AtLeastAsUrgent;
    var i := MostUrgentSpeaks(cs, r.dependents);
    SelectedIsMostUrgent(after, r.dependents);
    NewReads(r, cs, now, r.dependents[i]);
    assert Has(cs, r.dependents[i]);
    assert Complaint(after, r.dependents[i]) == Complaint(cs, r.dependents[i]);
    var j := MostUrgentSpeaks(after, r.dependents);
    NewReads(r, cs, now, r.dependents[j]);
    SameMostUrgent(cs, after, r.dependents, i, j);
  }

  /** Adding complaints that are not False does not change the most urgent False one. */
  lemma SameMostUrgent(cs: seq<Condition>, after: seq<Condition>, ds: seq<string>, i: nat, j: nat)
    requires i < |ds| && j < |ds| && MostUrgent(cs, ds, i) && MostUrgent(after, ds, j)
    requires Complaint(cs, ds[i])[0].status == ConditionFalse && Complaint(after, ds[i]) == Complaint(cs, ds[i])
    requires Complaint(after, ds[j]) == Complaint(cs, ds[j]) || Complaint(after, ds[j])[0].status != ConditionFalse
    ensures i == j
  {
    hide Complaint;
    if Complaint(after, ds[j])[0].status == ConditionFalse {
      assert Complaint(after, ds[j]) == Complaint(cs, ds[j]);
    }
  }

  /** The shortest list it is wrong over: one False dependent and no happy condition; one recompute puts it right. */
  lemma OldListStartsOutOfStep(r: Registration, c: Condition, t: Instant, u: Instant)
    requires Registered(r) && r.dependents == [c.kind]
    requires c.status == ConditionFalse && c.severity == SeverityError
    ensures !Mirrors(r, AfterNew(r, [c], t))
    ensures Mirrors(r, Recomputed(r, AfterNew(r, [c], t), c.kind, u))
  {
    FirstCons(OfKind(c.kind), c, []);
    FirstCons(OfKind(r.happy), c, []);
    assert [c] == [c] + [] && r.happy != c.kind;
    SelectedIsMostUrgent([c], r.dependents);
    assert Complaint([c], c.kind) == [c];
    FalseDependentSpeaks(r, [c], t);
    RecomputeMirrors(r, AfterNew(r, [c], t), c.kind, u);
  }

  lemma ListOrderIsTotal(r: Registration)
    ensures TotalPreorder(ListOrder(r))
  {
    StringOrderIsTotal();
    forall x: Condition, y: Condition ensures ListedBefore(r, x, y) || ListedBefore(r, y, x) {
      assert StringOrder()(x.kind, y.kind) || StringOrder()(y.kind, x.kind);
    }
    forall x: Condition, y: Condition, z: Condition | ListedBefore(r, x, y) && ListedBefore(r, y, z)
      ensures ListedBefore(r, x, z)
    {
      assert StringOrder()(x.kind, y.kind) && StringOrder()(y.kind, z.kind) ==> StringOrder()(x.kind, z.kind);
    }
  }

  lemma {:induction false} IndexInFinds(ds: seq<string>, d: string)
    requires d in ds
    ensures IndexIn(ds, d) < |ds| && ds[IndexIn(ds, d)] == d
  {
    if ds[0] != d {
      IndexInFinds(ds[1..], d);
    }
  }

  /** With unique types the sorted list does not depend on the order written. */
  lemma SortIsCanonical(r: Registration, cs: seq<Condition>, ds: seq<Condition>)
    requires Registered(r) && UniqueKinds(cs) && multiset(cs) == multiset(ds)
    ensures StableSort(ListOrder(r), cs) == StableSort(ListOrder(r), ds)
  {
    ListOrderIsTotal(r);
    StringOrderIsTotal();
    forall x, y | x in cs && y in cs && ListOrder(r)(x, y) && ListOrder(r)(y, x) ensures x == y {
      if x.kind in r.dependents { IndexInFinds(r.dependents, x.kind); }
      if y.kind in r.dependents { IndexInFinds(r.dependents, y.kind); }
      assert x.kind == y.kind;
    }
    SortForgetsOrder(ListOrder(r), cs, ds);
  }
}
