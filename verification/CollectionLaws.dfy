/**
 * What a sweep does, whatever others do meanwhile: it is one more history of the
 * server, it asks for the deletion of exactly what its lists showed it, and it
 * takes an object wrongly exactly when somebody wrote it in between. Undisturbed
 * it deletes exactly the doomed objects.
 */
module CollectionLaws {
  import opened Options
  import opened Cluster
  import opened DeploySpec
  import opened CollectionSpec

  // ----- a sweep is a history of the server -----

  lemma {:induction false} ItemsAreHistory(
      g: GcConfig, p: RunParams, s: Server, items: seq<Object>, pauses: nat -> Pause, n: nat)
    returns (acts: seq<Act>)
    requires n <= |items|
    ensures ItemsDeleted(g, p, s, items, pauses, n).server == Suffered(s, acts)
    decreases |items| - n
  {
    hide IsObjectDeletable;
    if n == |items| {
      return [];
    }
    match ItemStep(g, p, s, items[n], pauses(n))
    case Passed =>
      acts := ItemsAreHistory(g, p, s, items, pauses, n + 1);
    case Failed(s', e) =>
      acts := if IsObjectDeletable(g, p, items[n].content).Err? then [] else pauses(n).acts;
    case Gone(s', d) =>
      var own := [Act.Delete(items[n].content.key)];
      var rest := ItemsAreHistory(g, p, s', items, pauses, n + 1);
      SufferedAppend(s, pauses(n).acts, own);
      assert own[1..] == [] && Suffered(Suffered(s, pauses(n).acts), own) == s';
      SufferedAppend(s, pauses(n).acts + own, rest);
      acts := pauses(n).acts + own + rest;
  }

  lemma TypeIsHistory(g: GcConfig, p: RunParams, s: Server, gvk: GroupVersionKind, turn: TypeTurn, items: seq<Object>)
    returns (acts: seq<Act>)
    ensures TypeCollected(g, p, s, gvk, turn, items).server == Suffered(s, acts)
  {
    if !Sweepable(g, gvk) {
      return [];
    }
    if !turn.answer.Lists? {
      return turn.before;
    }
    var rest := ItemsAreHistory(g, p, Suffered(s, turn.before), items, turn.pauses, 0);
    SufferedAppend(s, turn.before, rest);
    acts := turn.before + rest;
  }

  /** So whatever holds of every history of the server holds of every sweep. */
  lemma {:induction false} SweepIsHistory(
      g: GcConfig, p: RunParams, s: Server, types: seq<GroupVersionKind>, turns: nat -> TypeTurn, steps: seq<Tally>)
    returns (acts: seq<Act>)
    requires SweepsOn(g, p, s, types, turns, steps)
    ensures ServerAfter(s, steps) == Suffered(s, acts)
    decreases |steps|
  {
    if steps == [] {
      return [];
    }
    var n := |steps| - 1;
    var init := steps[..n];
    SweepPrefix(g, p, s, types, turns, steps);
    var before := SweepIsHistory(g, p, s, types, turns, init);
    assert Collects(g, p, ServerAfter(s, init), types[n], turns(n), steps[n]);
    var last := TypeIsHistory(g, p, ServerAfter(s, init), types[n], turns(n), steps[n].listed);
    SufferedAppend(s, before, last);
    acts := before + last;
  }

  lemma SweepPrefix(
      g: GcConfig, p: RunParams, s: Server, types: seq<GroupVersionKind>, turns: nat -> TypeTurn, steps: seq<Tally>)
    requires SweepsOn(g, p, s, types, turns, steps) && steps != []
    ensures SweepsOn(g, p, s, types, turns, steps[..|steps| - 1]) && ErrorOf(steps[..|steps| - 1]) == None
  {
    hide Collects;
    var init := steps[..|steps| - 1];
    forall n | 0 <= n < |init| ensures Collects(g, p, ServerAfter(s, init[..n]), types[n], turns(n), init[n]) {
      assert init[..n] == steps[..n];
    }
  }

  lemma SweptOn(
      g: GcConfig, p: RunParams, s: Server, types: seq<GroupVersionKind>, turns: nat -> TypeTurn,
      steps: seq<Tally>, t: Tally)
    requires |steps| < |types| && SweepsOn(g, p, s, types, turns, steps) && ErrorOf(steps) == None
    requires Collects(g, p, ServerAfter(s, steps), types[|steps|], turns(|steps|), t)
    ensures SweepsOn(g, p, s, types, turns, steps + [t])
  {
    hide Collects;
    var more := steps + [t];
    forall n | 0 <= n < |more| ensures Collects(g, p, ServerAfter(s, more[..n]), types[n], turns(n), more[n]) {
      if n < |steps| {
        assert more[..n] == steps[..n] && more[n] == steps[n];
      } else {
        assert more[..n] == steps;
      }
    }
    forall n | 0 <= n < |more| - 1 ensures more[n].error == None {
      assert more[n] == steps[n];
    }
  }

  lemma DeletionsAppend(steps: seq<Tally>, t: Tally)
    ensures Deletions(steps + [t]) == Deletions(steps) + t.deletions
  {
    assert (steps + [t])[..|steps|] == steps;
  }

  // ----- what is asked to be deleted -----

  lemma DeletableErrors(g: GcConfig, p: RunParams, m: Manifest)
    ensures IsObjectDeletable(g, p, m).Err? ==> !IsObjectDeletable(g, p, m).error.MalformedGroupVersion?
  {
  }

  lemma {:induction false} ItemsAsked(
      g: GcConfig, p: RunParams, s: Server, items: seq<Object>, pauses: nat -> Pause, n: nat)
    requires n <= |items|
    ensures var t := ItemsDeleted(g, p, s, items, pauses, n);
            && t.listed == items
            && (forall d | d in t.deletions :: d.listed in items && MayGo(g, p, d.listed))
            && (t.error.Some? ==> !t.error.value.MalformedGroupVersion?)
            && (t.error == None ==>
                  forall j | n <= j < |items| ::
                    && IsObjectDeletable(g, p, items[j].content).Ok?
                    && (MayGo(g, p, items[j]) ==> exists d | d in t.deletions :: d.listed == items[j]))
    decreases |items| - n
  {
    hide IsObjectDeletable;
    if n < |items| {
      var t := ItemsDeleted(g, p, s, items, pauses, n);
      match ItemStep(g, p, s, items[n], pauses(n))
      case Passed =>
        ItemsAsked(g, p, s, items, pauses, n + 1);
      case Failed(_, _) =>
        DeletableErrors(g, p, items[n].content);
      case Gone(s', d) =>
        ItemsAsked(g, p, s', items, pauses, n + 1);
        var rest := ItemsDeleted(g, p, s', items, pauses, n + 1);
        assert t.deletions == [d] + rest.deletions && d in t.deletions;
        assert forall e | e in rest.deletions :: e in t.deletions;
    }
  }

  /**
   * Every request of a sweep is for an object its list showed to be deletable;
   * and if nothing failed there is one for each of those.
   */
  lemma TypeAsksExactlyFor(g: GcConfig, p: RunParams, s: Server, gvk: GroupVersionKind, turn: TypeTurn, t: Tally)
    requires Collects(g, p, s, gvk, turn, t)
    ensures forall d | d in t.deletions :: d.listed in t.listed && MayGo(g, p, d.listed)
    ensures t.error == None ==>
              forall o | o in t.listed ::
                && IsObjectDeletable(g, p, o.content).Ok?
                && ((exists d | d in t.deletions :: d.listed == o) <==> MayGo(g, p, o))
    ensures forall o | o in t.listed ::
              && o.content.key in Suffered(s, turn.before).objects
              && Suffered(s, turn.before).objects[o.content.key] == o
              && Listed(g, p, [gvk], Suffered(s, turn.before), o.content.key)
  {
    hide IsObjectDeletable, Matches, Suffered;
    if Sweepable(g, gvk) && turn.answer.Lists? {
      ItemsAsked(g, p, Suffered(s, turn.before), t.listed, turn.pauses, 0);
      forall o | o in t.listed && t.error == None
        ensures IsObjectDeletable(g, p, o.content).Ok?
        ensures (exists d | d in t.deletions :: d.listed == o) <==> MayGo(g, p, o)
      {
        var j :| 0 <= j < |t.listed| && t.listed[j] == o;
      }
    }
  }

  /** The sweep itself never fails for the sake of a type. */
  lemma NotOfTypes(
      g: GcConfig, p: RunParams, s: Server, types: seq<GroupVersionKind>, turns: nat -> TypeTurn, steps: seq<Tally>)
    requires SweepsOn(g, p, s, types, turns, steps)
    ensures ErrorOf(steps).Some? ==> !ErrorOf(steps).value.MalformedGroupVersion?
  {
    hide ItemsDeleted, Suffered;
    if steps != [] {
      var n := |steps| - 1;
      var before := ServerAfter(s, steps[..n]);
      assert Collects(g, p, before, types[n], turns(n), steps[n]);
      ItemsAsked(g, p, Suffered(before, turns(n).before), steps[n].listed, turns(n).pauses, 0);
    }
  }

  lemma {:induction false} DeletionsOfSteps(steps: seq<Tally>, d: Deletion)
    ensures d in Deletions(steps) <==> exists n | 0 <= n < |steps| :: d in steps[n].deletions
    decreases |steps|
  {
    if steps != [] {
      var init := steps[..|steps| - 1];
      DeletionsOfSteps(init, d);
      if d in Deletions(init) {
        var n :| 0 <= n < |init| && d in init[n].deletions;
        assert d in steps[n].deletions;
      }
      if n :| 0 <= n < |steps| && d in steps[n].deletions {
        if n < |init| { assert d in init[n].deletions; }
      }
    }
  }

  // ----- what is deleted wrongly -----

  /** The request met an object that is not due by itself. */
  predicate Wrong(g: GcConfig, p: RunParams, d: Deletion) {
    d.met.Some? && !d.met.value.terminating && !MayGo(g, p, d.met.value)
  }

  /** What happens to the server between the list and the j-th request: others act, and earlier requests are served. */
  function Meanwhile(g: GcConfig, p: RunParams, items: seq<Object>, pauses: nat -> Pause, n: nat, j: nat): seq<Act>
    requires n <= |items|
    decreases |items| - n
  {
    if n == |items| then []
    else if !MayGo(g, p, items[n]) then Meanwhile(g, p, items, pauses, n + 1, j)
    else if j == 0 then pauses(n).acts
    else pauses(n).acts + [Act.Delete(items[n].content.key)] + Meanwhile(g, p, items, pauses, n + 1, j - 1)
  }

  lemma {:induction false} RequestMeets(
      g: GcConfig, p: RunParams, s: Server, items: seq<Object>, pauses: nat -> Pause, n: nat, j: nat)
    requires n <= |items| && j < |ItemsDeleted(g, p, s, items, pauses, n).deletions|
    ensures var d := ItemsDeleted(g, p, s, items, pauses, n).deletions[j];
            d.met == Get(Suffered(s, Meanwhile(g, p, items, pauses, n, j)), d.listed.content.key)
    decreases |items| - n
  {
    hide IsObjectDeletable;
    match ItemStep(g, p, s, items[n], pauses(n))
    case Passed =>
      RequestMeets(g, p, s, items, pauses, n + 1, j);
    case Failed(_, _) =>
    case Gone(s', d) =>
      if j > 0 {
        var own, rest := [Act.Delete(items[n].content.key)], Meanwhile(g, p, items, pauses, n + 1, j - 1);
        RequestMeets(g, p, s', items, pauses, n + 1, j - 1);
        SufferedAppend(s, pauses(n).acts, own);
        assert own[1..] == [] && Suffered(Suffered(s, pauses(n).acts), own) == s';
        SufferedAppend(s, pauses(n).acts + own, rest);
      }
  }

  /** The last of these acts that concerns the key. */
  function LastOn(acts: seq<Act>, k: Key): Option<Act> {
    if acts == [] then None
    else
      var last := acts[|acts| - 1];
      if KeyOf(last) == k then Some(last) else LastOn(acts[..|acts| - 1], k)
  }

  lemma {:induction false} LastDecides(s: Server, acts: seq<Act>, k: Key)
    requires ValidServer(s)
    ensures var o := Get(Suffered(s, acts), k);
            match LastOn(acts, k)
            case None => o == Get(s, k)
            case Some(Write(content, terminating)) =>
              && o.Some? && o.value.content == content && o.value.terminating == terminating
              && s.lastVersion < o.value.resourceVersion
            case Some(Delete(_)) => o.Some? ==> o.value.terminating
            case Some(Remove(_)) => o.None?
    decreases |acts|
  {
    if acts != [] {
      var init, last := acts[..|acts| - 1], acts[|acts| - 1];
      assert acts == init + [last] && [last][1..] == [];
      SufferedAppend(s, init, [last]);
      SufferedValid(s, init);
      assert Suffered(Suffered(s, init), [last]) == Suffered(Acted(Suffered(s, init), last), []);
      LastDecides(s, init, k);
    }
  }

  /** Somebody left the object, after it was listed, as one that is not due. */
  predicate Rescued(g: GcConfig, p: RunParams, acts: seq<Act>, k: Key) {
    match LastOn(acts, k)
    case Some(Write(content, terminating)) => !terminating && IsObjectDeletable(g, p, content) != Ok(true)
    case _ => false
  }

  /**
   * The j-th request of a type takes an object wrongly exactly when the last
   * thing that happened to that object since it was listed is a write that makes
   * it undeletable: the request names no version. It can only be a later version.
   */
  lemma TakenWronglyExactlyWhen(
      g: GcConfig, p: RunParams, s: Server, gvk: GroupVersionKind, turn: TypeTurn, t: Tally, j: nat)
    requires ValidServer(s) && Collects(g, p, s, gvk, turn, t) && j < |t.deletions|
    ensures var d := t.deletions[j];
            && (Wrong(g, p, d) <==> Rescued(g, p, Meanwhile(g, p, t.listed, turn.pauses, 0, j), d.listed.content.key))
            && (Wrong(g, p, d) ==> d.listed.resourceVersion < d.met.value.resourceVersion)
  {
    var listing, d := Suffered(s, turn.before), t.deletions[j];
    var acts, k := Meanwhile(g, p, t.listed, turn.pauses, 0, j), d.listed.content.key;
    TypeAsksExactlyFor(g, p, s, gvk, turn, t);
    assert d in t.deletions;
    SufferedValid(s, turn.before);
    RequestMeets(g, p, listing, t.listed, turn.pauses, 0, j);
    LastDecides(listing, acts, k);
    hide IsObjectDeletable, Matches, Suffered, ItemsDeleted, Meanwhile, LastOn;
    assert listing.objects[k] == d.listed;
  }

  // ----- an undisturbed sweep -----

  /** Every deletion so far was due. */
  ghost predicate Sound(g: GcConfig, p: RunParams, types: seq<GroupVersionKind>, before: Server, gone: set<Key>) {
    forall k | k in gone :: Doomed(g, p, types, before, k)
  }

  /** And on a finished prefix of the types nothing due is left. */
  ghost predicate Swept(g: GcConfig, p: RunParams, types: seq<GroupVersionKind>, before: Server, gone: set<Key>) {
    && Sound(g, p, types, before, gone)
    && (forall k | Doomed(g, p, types, before, k) :: k in gone)
    && (forall k | Listed(g, p, types, before, k) :: IsObjectDeletable(g, p, before.objects[k].content).Ok?)
  }

  ghost predicate Stumbled(g: GcConfig, p: RunParams, types: seq<GroupVersionKind>, before: Server, e: GcError) {
    exists k | Listed(g, p, types, before, k) :: IsObjectDeletable(g, p, before.objects[k].content) == Err(e)
  }

  lemma SweptStep(
      g: GcConfig, p: RunParams, types: seq<GroupVersionKind>, gvk: GroupVersionKind, before: Server,
      gone: set<Key>, gone': set<Key>, finished: bool)
    requires Swept(g, p, types, before, gone) && gone <= gone'
    requires forall k | k in gone' - gone :: Doomed(g, p, [gvk], before, k)
    requires finished ==> forall k | Doomed(g, p, [gvk], before, k) :: k in gone'
    requires finished ==> forall k | Listed(g, p, [gvk], before, k) ::
               IsObjectDeletable(g, p, before.objects[k].content).Ok?
    ensures Sound(g, p, types + [gvk], before, gone')
    ensures finished ==> Swept(g, p, types + [gvk], before, gone')
  {
    hide IsObjectDeletable, Matches;
    forall k
      ensures Listed(g, p, types + [gvk], before, k) <==>
                Listed(g, p, types, before, k) || Listed(g, p, [gvk], before, k)
      ensures Doomed(g, p, types + [gvk], before, k) <==>
                Doomed(g, p, types, before, k) || Doomed(g, p, [gvk], before, k)
    {}
  }

  lemma StumbledWithin(
      g: GcConfig, p: RunParams, some: seq<GroupVersionKind>, all: seq<GroupVersionKind>, before: Server,
      gone: set<Key>)
    requires forall t | t in some :: t in all
    ensures Sound(g, p, some, before, gone) ==> Sound(g, p, all, before, gone)
    ensures forall e | Stumbled(g, p, some, before, e) :: Stumbled(g, p, all, before, e)
  {
    hide IsObjectDeletable, Matches;
    forall e | Stumbled(g, p, some, before, e) ensures Stumbled(g, p, all, before, e) {
      var k :| Listed(g, p, some, before, k) && IsObjectDeletable(g, p, before.objects[k].content) == Err(e);
      assert Listed(g, p, all, before, k);
    }
  }

  /** The copies from the n-th on are still the live objects. */
  ghost predicate StillLive(s: Server, items: seq<Object>, n: nat) {
    && (forall j | n <= j < |items| ::
          items[j].content.key in s.objects && s.objects[items[j].content.key] == items[j])
    && (forall i, j | 0 <= i < j < |items| :: items[i].content.key != items[j].content.key)
  }

  function Asked(ds: seq<Deletion>): set<Key> {
    set d | d in ds :: d.listed.content.key
  }

  /** One more object deleted. */
  lemma SweptOneMore(before: Server, s: Server, gone: set<Key>, k: Key)
    requires ValidServer(s) && SweptBy(before, s, gone) && k in s.objects && !s.objects[k].terminating
    ensures k !in gone && !before.objects[k].terminating
    ensures ValidServer(Deleted(s, k)) && SweptBy(before, Deleted(s, k), gone + {k})
  {
  }

  lemma StillLiveAfter(s: Server, items: seq<Object>, n: nat)
    requires n < |items| && StillLive(s, items, n)
    ensures var k := items[n].content.key;
            && k in s.objects && s.objects[k] == items[n]
            && StillLive(s, items, n + 1) && StillLive(Deleted(s, k), items, n + 1)
  {
  }

  /** One item of an undisturbed loop: passed over, malformed, or deleted as it was listed. */
  lemma QuietStep(g: GcConfig, p: RunParams, before: Server, s: Server, gone: set<Key>, items: seq<Object>, n: nat)
    requires n < |items| && StillLive(s, items, n) && ValidServer(s) && SweptBy(before, s, gone)
    ensures match ItemStep(g, p, s, items[n], Pause([], None))
            case Passed => StillLive(s, items, n + 1)
            case Failed(s', _) => s' == s
            case Gone(s', d) =>
              var k := items[n].content.key;
              && d.listed == items[n] && k !in gone
              && StillLive(s', items, n + 1) && ValidServer(s') && SweptBy(before, s', gone + {k})
  {
    StillLiveAfter(s, items, n);
    hide IsObjectDeletable, StillLive, SweptBy;
    assert Suffered(s, []) == s;
    if MayGo(g, p, items[n]) {
      SweptOneMore(before, s, gone, items[n].content.key);
    }
  }

  lemma {:induction false} QuietItems(
      g: GcConfig, p: RunParams, before: Server, s: Server, gone: set<Key>, items: seq<Object>, pauses: nat -> Pause,
      n: nat)
    requires n <= |items| && StillLive(s, items, n) && forall j: nat :: pauses(j) == Pause([], None)
    requires ValidServer(s) && SweptBy(before, s, gone)
    ensures var t := ItemsDeleted(g, p, s, items, pauses, n);
            && ValidServer(t.server) && SweptBy(before, t.server, gone + Asked(t.deletions))
            && gone !! Asked(t.deletions) && |Asked(t.deletions)| == |t.deletions|
    decreases |items| - n
  {
    hide ItemStep, SweptBy, StillLive, ValidServer;
    if n < |items| {
      assert pauses(n) == Pause([], None);
      QuietStep(g, p, before, s, gone, items, n);
      match ItemStep(g, p, s, items[n], pauses(n))
      case Passed =>
        QuietItems(g, p, before, s, gone, items, pauses, n + 1);
      case Failed(_, _) =>
        assert gone + Asked([]) == gone;
      case Gone(s', d) =>
        var k := items[n].content.key;
        QuietItems(g, p, before, s', gone + {k}, items, pauses, n + 1);
        var rest := ItemsDeleted(g, p, s', items, pauses, n + 1).deletions;
        AskedOfCons(d, rest);
        assert gone + ({k} + Asked(rest)) == gone + {k} + Asked(rest);
        assert |{k} + Asked(rest)| == 1 + |Asked(rest)|;
    } else {
      assert gone + Asked([]) == gone;
    }
  }

  lemma AskedOfCons(d: Deletion, ds: seq<Deletion>)
    ensures Asked([d] + ds) == {d.listed.content.key} + Asked(ds)
  {
    assert forall e :: e in [d] + ds <==> e == d || e in ds;
  }

  lemma {:induction false} QuietFailure(
      g: GcConfig, p: RunParams, s: Server, items: seq<Object>, pauses: nat -> Pause, n: nat)
    requires n <= |items| && forall j: nat :: pauses(j) == Pause([], None)
    requires ItemsDeleted(g, p, s, items, pauses, n).error.Some?
    ensures exists o | o in items ::
              IsObjectDeletable(g, p, o.content) == Err(ItemsDeleted(g, p, s, items, pauses, n).error.value)
    decreases |items| - n
  {
    hide IsObjectDeletable;
    assert pauses(n) == Pause([], None);
    match ItemStep(g, p, s, items[n], pauses(n))
    case Passed => QuietFailure(g, p, s, items, pauses, n + 1);
    case Failed(_, _) => assert items[n] in items;
    case Gone(s', _) => QuietFailure(g, p, s', items, pauses, n + 1);
  }

  /** In a swept server the copies of a list are the objects there were before, except for those on their way out. */
  lemma ListedBefore(
      g: GcConfig, p: RunParams, before: Server, s: Server, gone: set<Key>, gvk: GroupVersionKind, items: seq<Object>)
    requires ValidServer(s) && SweptBy(before, s, gone) && ListedBy(g, p, s, gvk, items) && Sweepable(g, gvk)
    ensures StillLive(s, items, 0)
    ensures forall o | o in items ::
              && Listed(g, p, [gvk], before, o.content.key) && before.objects[o.content.key].content == o.content
              && (!o.terminating ==> before.objects[o.content.key] == o)
    ensures forall k | Listed(g, p, [gvk], before, k) ::
              k in s.objects && s.objects[k] in items && (k !in gone ==> s.objects[k] == before.objects[k])
  {
    hide Matches;
    forall j | 0 <= j < |items|
      ensures items[j].content.key in s.objects && s.objects[items[j].content.key] == items[j]
    {
      assert items[j] in items;
    }
  }

  lemma QuietType(
      g: GcConfig, p: RunParams, before: Server, s: Server, gone: set<Key>, gvk: GroupVersionKind, turn: TypeTurn,
      t: Tally)
    requires ValidServer(s) && SweptBy(before, s, gone) && Collects(g, p, s, gvk, turn, t) && QuietTurn(turn)
    ensures ValidServer(t.server) && SweptBy(before, t.server, gone + Asked(t.deletions))
    ensures gone !! Asked(t.deletions) && |Asked(t.deletions)| == |t.deletions|
    ensures forall k | k in Asked(t.deletions) :: Doomed(g, p, [gvk], before, k)
    ensures t.error == None ==>
              forall k | Doomed(g, p, [gvk], before, k) :: k in gone + Asked(t.deletions)
    ensures t.error == None ==>
              forall k | Listed(g, p, [gvk], before, k) :: IsObjectDeletable(g, p, before.objects[k].content).Ok?
    ensures t.error.Some? ==> Stumbled(g, p, [gvk], before, t.error.value)
  {
    hide IsObjectDeletable, Matches, ItemsDeleted, SweptBy, StillLive, Listed, ListedBy, Stumbled, Doomed;
    if Sweepable(g, gvk) {
      assert Suffered(s, turn.before) == s;
      ListedBefore(g, p, before, s, gone, gvk, t.listed);
      QuietItems(g, p, before, s, gone, t.listed, turn.pauses, 0);
      QuietTypeAsks(g, p, before, s, gone, gvk, turn.pauses, t);
    } else {
      NotSweepable(g, p, before, gvk);
      assert gone + Asked([]) == gone;
    }
  }

  /** What an undisturbed type asks for, in terms of the server there was before the sweep. */
  lemma QuietTypeAsks(
      g: GcConfig, p: RunParams, before: Server, s: Server, gone: set<Key>, gvk: GroupVersionKind,
      pauses: nat -> Pause, t: Tally)
    requires ValidServer(s) && SweptBy(before, s, gone) && ListedBy(g, p, s, gvk, t.listed) && Sweepable(g, gvk)
    requires t == ItemsDeleted(g, p, s, t.listed, pauses, 0) && forall j: nat :: pauses(j) == Pause([], None)
    ensures forall k | k in Asked(t.deletions) :: Doomed(g, p, [gvk], before, k)
    ensures t.error == None ==>
              forall k | Doomed(g, p, [gvk], before, k) :: k in gone + Asked(t.deletions)
    ensures t.error == None ==>
              forall k | Listed(g, p, [gvk], before, k) :: IsObjectDeletable(g, p, before.objects[k].content).Ok?
    ensures t.error.Some? ==> Stumbled(g, p, [gvk], before, t.error.value)
  {
    ListedBefore(g, p, before, s, gone, gvk, t.listed);
    ItemsAsked(g, p, s, t.listed, pauses, 0);
    hide IsObjectDeletable, Matches, ItemsDeleted, SweptBy, StillLive, Listed, ListedBy;
    assert forall o | o in t.listed :: exists j | 0 <= j < |t.listed| :: t.listed[j] == o;
    if t.error.Some? {
      QuietFailure(g, p, s, t.listed, pauses, 0);
    } else {
      forall k | Doomed(g, p, [gvk], before, k) ensures k in gone + Asked(t.deletions) {
        assert s.objects[k] in t.listed;
      }
    }
  }

  lemma NotSweepable(g: GcConfig, p: RunParams, s: Server, gvk: GroupVersionKind)
    requires !Sweepable(g, gvk)
    ensures forall k :: !Listed(g, p, [gvk], s, k)
    ensures forall k :: !Doomed(g, p, [gvk], s, k)
  {
  }

  lemma {:induction false} QuietSteps(
      g: GcConfig, p: RunParams, s: Server, types: seq<GroupVersionKind>, turns: nat -> TypeTurn, steps: seq<Tally>)
    returns (gone: set<Key>)
    requires ValidServer(s) && SweepsOn(g, p, s, types, turns, steps) && Undisturbed(turns)
    ensures ValidServer(ServerAfter(s, steps)) && SweptBy(s, ServerAfter(s, steps), gone)
    ensures Sound(g, p, types[..|steps|], s, gone) && |gone| == |Deletions(steps)|
    ensures ErrorOf(steps) == None ==> Swept(g, p, types[..|steps|], s, gone)
    ensures ErrorOf(steps).Some? ==> Stumbled(g, p, types[..|steps|], s, ErrorOf(steps).value)
    decreases |steps|
  {
    hide IsObjectDeletable, SweptBy, Listed, Collects, Sound, Swept, Stumbled, ValidServer, Undisturbed, QuietTurn,
        Doomed;
    if steps == [] {
      gone := {};
      NothingSwept(s);
      assert types[..0] == [];
      NothingDue(g, p, s);
    } else {
      var n := |steps| - 1;
      var init := steps[..n];
      SweepPrefix(g, p, s, types, turns, steps);
      LastStep(g, p, s, types, turns, steps);
      hide SweepsOn, Asked;
      var gone0 := QuietSteps(g, p, s, types, turns, init);
      assert types[..n] + [types[n]] == types[..n + 1];
      TurnIsQuiet(turns, n);
      gone := gone0 + Asked(steps[n].deletions);
      QuietStepOfSweep(g, p, s, ServerAfter(s, init), types[..n], gone0, types[n], turns(n), steps[n]);
    }
  }

  lemma LastStep(
      g: GcConfig, p: RunParams, s: Server, types: seq<GroupVersionKind>, turns: nat -> TypeTurn, steps: seq<Tally>)
    requires SweepsOn(g, p, s, types, turns, steps) && steps != []
    ensures var n := |steps| - 1;
            && n < |types| && Collects(g, p, ServerAfter(s, steps[..n]), types[n], turns(n), steps[n])
  {
    hide Collects;
  }

  lemma TurnIsQuiet(turns: nat -> TypeTurn, n: nat)
    requires Undisturbed(turns)
    ensures QuietTurn(turns(n))
  {
  }

  /** One more type of an undisturbed sweep. */
  lemma QuietStepOfSweep(
      g: GcConfig, p: RunParams, before: Server, s: Server, types: seq<GroupVersionKind>, gone: set<Key>,
      gvk: GroupVersionKind, turn: TypeTurn, t: Tally)
    requires ValidServer(s) && SweptBy(before, s, gone) && Swept(g, p, types, before, gone)
    requires Collects(g, p, s, gvk, turn, t) && QuietTurn(turn)
    ensures var gone' := gone + Asked(t.deletions);
            && ValidServer(t.server) && SweptBy(before, t.server, gone')
            && |gone'| == |gone| + |t.deletions|
            && Sound(g, p, types + [gvk], before, gone')
            && (t.error == None ==> Swept(g, p, types + [gvk], before, gone'))
            && (t.error.Some? ==> Stumbled(g, p, types + [gvk], before, t.error.value))
  {
    hide IsObjectDeletable, SweptBy, Listed, Collects, Swept, Sound, Stumbled, QuietTurn, ValidServer;
    QuietType(g, p, before, s, gone, gvk, turn, t);
    var gone' := gone + Asked(t.deletions);
    assert gone' - gone <= Asked(t.deletions);
    SweptStep(g, p, types, gvk, before, gone, gone', t.error == None);
    StumbledWithin(g, p, [gvk], types + [gvk], before, gone');
  }

  lemma NothingSwept(s: Server)
    ensures SweptBy(s, s, {})
  {
  }

  lemma NothingDue(g: GcConfig, p: RunParams, s: Server)
    ensures Swept(g, p, [], s, {})
  {
  }

  /**
   * If nobody acts and no request fails, the sweep deletes exactly the doomed
   * objects, or ends at a malformed one with only doomed objects gone.
   */
  lemma UndisturbedSweep(
      g: GcConfig, p: RunParams, s: Server, types: seq<GroupVersionKind>, turns: nat -> TypeTurn, steps: seq<Tally>)
    returns (gone: set<Key>)
    requires ValidServer(s) && Sweeps(g, p, s, types, turns, steps) && Undisturbed(turns)
    ensures SweptBy(s, ServerAfter(s, steps), gone) && |gone| == |Deletions(steps)|
    ensures Sound(g, p, types, s, gone)
    ensures ErrorOf(steps) == None ==> Swept(g, p, types, s, gone)
    ensures ErrorOf(steps).Some? ==> Stumbled(g, p, types, s, ErrorOf(steps).value)
  {
    hide IsObjectDeletable, SweptBy, Sound, Swept, Stumbled;
    gone := QuietSteps(g, p, s, types, turns, steps);
    if |steps| == |types| {
      assert types[..|steps|] == types;
    } else {
      StumbledWithin(g, p, types[..|steps|], types, s, gone);
    }
  }
}
