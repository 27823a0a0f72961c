/**
 * Watches registered on demand by concurrent reconcile calls: a protocol over
 * the atomic steps of all calls, with a lock around check, registration and
 * record, and a check without the lock in front of it.
 */
module DynamicWatches {
  import opened Options
  import opened Cluster

  const CRD := GroupVersionKind("apiextensions.k8s.io", "v1", "CustomResourceDefinition")

  /** What is watched once: a type for owned or for other objects, or one CRD by name. */
  datatype WatchKey = TypeWatch(gvk: GroupVersionKind, owned: bool) | CrdWatch(name: string)

  /** A rendered resource, with what the controller and the matcher say about it. */
  datatype Item = Item(gvk: GroupVersionKind, name: string, managedFalse: bool, excluded: bool)

  function KeyOf(x: Item): WatchKey {
    if x.gvk == CRD then CrdWatch(x.name) else TypeWatch(x.gvk, !x.managedFalse)
  }

  /** Where one `run` call stands. */
  datatype Pc =
    | Scanning
    | Probing(key: WatchKey)
    | Waiting(key: WatchKey)
    | Checking(key: WatchKey)
    | Registered(key: WatchKey)
    | Stored(key: WatchKey)
    | Releasing(failed: bool)
    | Done
    | Failed

  /** A call's own variables; `handled` and `unavailable` remember its history. */
  datatype Call = Call(rest: seq<Item>, seen: set<WatchKey>, pc: Pc, handled: set<WatchKey>, unavailable: set<WatchKey>)

  datatype Attempt = Attempt(key: WatchKey, ok: bool)

  datatype World = World(
    watched: set<WatchKey>,
    holder: Option<nat>,
    log: seq<Attempt>,
    ownedTypes: set<GroupVersionKind>,
    calls: seq<Call>)

  /** What the outside answers when a step asks: API available or registration accepted, not, or an error. */
  datatype Answer = Yes | No | Fault

  datatype Move = Move(call: nat, answer: Answer)

  function Started(enabled: bool, items: seq<Item>): Call {
    Call(items, {}, if enabled then Scanning else Done, {}, {})
  }

  function Next(c: Call): Call
    requires c.rest != []
  {
    c.(rest := c.rest[1..], pc := Scanning)
  }

  /** The loop body up to the lock. */
  function Scanned(c: Call, watched: set<WatchKey>): Call {
    if c.rest == [] then c.(pc := Done)
    else
      var x := c.rest[0];
      var key := KeyOf(x);
      if x.excluded then Next(c)
      else if key.CrdWatch? then c.(pc := Waiting(key))
      else if key in c.seen then Next(c)
      else
        var noted := c.(seen := c.seen + {key});
        if key in watched then Next(noted).(handled := c.handled + {key}) else noted.(pc := Probing(key))
  }

  function Probed(c: Call, answer: Answer): Call
    requires c.pc.Probing? && c.rest != []
  {
    match answer
    case Fault => c.(pc := Failed)
    case No => Next(c).(unavailable := c.unavailable + {c.pc.key})
    case Yes => c.(pc := Waiting(c.pc.key))
  }

  function WithCall(w: World, t: nat, c: Call): World
    requires t < |w.calls|
  {
    w.(calls := w.calls[t := c])
  }

  /** One atomic step of one call; a call that cannot move leaves the world alone. */
  function Step(w: World, m: Move): World {
    if m.call >= |w.calls| then w
    else
      var t, c := m.call, w.calls[m.call];
      match c.pc
      case Scanning => WithCall(w, t, Scanned(c, w.watched))
      case Probing(_) => if c.rest == [] then w else WithCall(w, t, Probed(c, m.answer))
      case Waiting(key) => if w.holder.Some? then w else WithCall(w.(holder := Some(t)), t, c.(pc := Checking(key)))
      case Checking(key) =>
        if key in w.watched then WithCall(w, t, c.(pc := Releasing(false), handled := c.handled + {key}))
        else if m.answer == Yes then WithCall(w.(log := w.log + [Attempt(key, true)]), t, c.(pc := Registered(key)))
        else WithCall(w.(log := w.log + [Attempt(key, false)]), t, c.(pc := Releasing(true)))
      case Registered(key) =>
        WithCall(w.(watched := w.watched + {key}), t, c.(pc := Stored(key), handled := c.handled + {key}))
      case Stored(key) =>
        var types := if key.TypeWatch? && key.owned then w.ownedTypes + {key.gvk} else w.ownedTypes;
        WithCall(w.(ownedTypes := types), t, c.(pc := Releasing(false)))
      case Releasing(failed) =>
        var free := w.(holder := None);
        if failed || c.rest == [] then WithCall(free, t, c.(pc := Failed)) else WithCall(free, t, Next(c))
      case Done => w
      case Failed => w
  }

  function Run(w: World, ms: seq<Move>): World
    decreases |ms|
  {
    if ms == [] then w else Run(Step(w, ms[0]), ms[1..])
  }

  /** `WithPreRegistered`: types the controller builder already watches, as owned. */
  function PreRegistered(gvks: set<GroupVersionKind>): set<WatchKey> {
    set g | g in gvks :: TypeWatch(g, true)
  }

  ghost predicate Fresh(c: Call) {
    c.seen == {} && c.handled == {} && c.unavailable == {} && (c.pc == Scanning || c.pc == Done)
  }

  ghost predicate Initial(w: World, pre: set<GroupVersionKind>) {
    && w.watched == PreRegistered(pre) && w.holder == None && w.log == [] && w.ownedTypes == {}
    && forall c | c in w.calls :: Fresh(c)
  }

  // ----- what every interleaving keeps -----

  function Successes(log: seq<Attempt>, key: WatchKey): nat {
    if log == [] then 0
    else Successes(log[..|log| - 1], key) + if log[|log| - 1] == Attempt(key, true) then 1 else 0
  }

  lemma SuccessesStep(log: seq<Attempt>, a: Attempt, key: WatchKey)
    ensures Successes(log + [a], key) == Successes(log, key) + if a == Attempt(key, true) then 1 else 0
  {
    assert (log + [a])[..|log|] == log;
  }

  predicate InCritical(pc: Pc) {
    pc.Checking? || pc.Registered? || pc.Stored? || pc.Releasing?
  }

  /** Exactly the holder is between acquiring and releasing. */
  ghost predicate Exclusive(w: World) {
    && (w.holder.Some? ==> w.holder.value < |w.calls|)
    && forall t | 0 <= t < |w.calls| :: InCritical(w.calls[t].pc) <==> w.holder == Some(t)
  }

  /** The key a call has registered but not yet recorded. */
  function Pending(w: World): set<WatchKey> {
    if w.holder.Some? && w.holder.value < |w.calls| && w.calls[w.holder.value].pc.Registered?
    then {w.calls[w.holder.value].pc.key} else {}
  }

  /** The type a call has recorded but not yet announced as owned. */
  function Unannounced(w: World): set<WatchKey> {
    if w.holder.Some? && w.holder.value < |w.calls| && w.calls[w.holder.value].pc.Stored?
    then {w.calls[w.holder.value].pc.key} else {}
  }

  ghost predicate Inv(w: World, pre: set<WatchKey>) {
    && Exclusive(w)
    && pre <= w.watched && Pending(w) !! w.watched && Unannounced(w) <= w.watched - pre
    && (forall key :: Successes(w.log, key) == if key in w.watched - pre + Pending(w) then 1 else 0)
    && (forall a | a in w.log :: a.key !in pre)
    && (forall i, j | 0 <= i < j < |w.log| && w.log[i].ok :: w.log[j].key != w.log[i].key)
    && (forall g :: g in w.ownedTypes <==> TypeWatch(g, true) in w.watched - pre - Unannounced(w))
  }

  lemma {:induction false} SuccessIsLogged(log: seq<Attempt>, key: WatchKey)
    ensures Successes(log, key) > 0 <==> Attempt(key, true) in log
  {
    if log != [] {
      SuccessIsLogged(log[..|log| - 1], key);
      assert log == log[..|log| - 1] + [log[|log| - 1]];
    }
  }

  /** Steps outside the lock: only the call's own variables change. */
  lemma OwnStepKeepsInv(w: World, pre: set<WatchKey>, t: nat, c: Call)
    requires Inv(w, pre) && t < |w.calls| && !InCritical(w.calls[t].pc) && !InCritical(c.pc)
    ensures Inv(WithCall(w, t, c), pre)
  {
    hide Successes;
    var after := WithCall(w, t, c);
    assert Exclusive(after);
    assert Pending(after) == Pending(w) && Unannounced(after) == Unannounced(w);
  }

  lemma AcquireKeepsInv(w: World, pre: set<WatchKey>, t: nat, c: Call)
    requires Inv(w, pre) && t < |w.calls| && w.holder.None? && c.pc.Checking?
    ensures Inv(WithCall(w.(holder := Some(t)), t, c), pre)
  {
    hide Successes;
    var after := WithCall(w.(holder := Some(t)), t, c);
    assert Exclusive(after);
    assert Pending(after) == {} == Pending(w) && Unannounced(after) == {} == Unannounced(w);
  }

  lemma AttemptKeepsInv(w: World, pre: set<WatchKey>, t: nat, key: WatchKey, c: Call, ok: bool)
    requires Inv(w, pre) && t < |w.calls| && w.calls[t].pc == Checking(key) && key !in w.watched
    requires c.pc == if ok then Registered(key) else Releasing(true)
    ensures Inv(WithCall(w.(log := w.log + [Attempt(key, ok)]), t, c), pre)
  {
    hide Successes;
    assert w.holder == Some(t) && Pending(w) == {} && Unannounced(w) == {};
    var after := WithCall(w.(log := w.log + [Attempt(key, ok)]), t, c);
    assert Exclusive(after);
    assert Pending(after) == (if ok then {key} else {}) && Unannounced(after) == {};
    forall k ensures Successes(after.log, k) == if k in after.watched - pre + Pending(after) then 1 else 0 {
      SuccessesStep(w.log, Attempt(key, ok), k);
    }
    SuccessIsLogged(w.log, key);
    assert Attempt(key, true) !in w.log;
    assert forall i | 0 <= i < |w.log| && w.log[i].ok :: w.log[i] == Attempt(w.log[i].key, true) && w.log[i] in w.log;
  }

  lemma StoreKeepsInv(w: World, pre: set<WatchKey>, t: nat, key: WatchKey, c: Call)
    requires Inv(w, pre) && t < |w.calls| && w.calls[t].pc == Registered(key) && c.pc == Stored(key)
    ensures Inv(WithCall(w.(watched := w.watched + {key}), t, c), pre)
  {
    hide Successes;
    assert w.holder == Some(t) && Pending(w) == {key} && Unannounced(w) == {};
    var after := WithCall(w.(watched := w.watched + {key}), t, c);
    assert Exclusive(after);
    assert Pending(after) == {} && Unannounced(after) == {key};
    assert Successes(w.log, key) == 1;
    if key in pre {
      SuccessIsLogged(w.log, key);
    }
  }

  lemma InsideStepKeepsInv(w: World, pre: set<WatchKey>, t: nat, c: Call)
    requires Inv(w, pre) && t < |w.calls| && w.calls[t].pc.Checking? && c.pc.Releasing?
    ensures Inv(WithCall(w, t, c), pre)
  {
    hide Successes;
    assert w.holder == Some(t);
    var after := WithCall(w, t, c);
    assert Exclusive(after);
    assert Pending(after) == {} == Pending(w) && Unannounced(after) == {} == Unannounced(w);
  }

  lemma AnnounceKeepsInv(w: World, pre: set<WatchKey>, t: nat, key: WatchKey, c: Call)
    requires Inv(w, pre) && t < |w.calls| && w.calls[t].pc == Stored(key) && c.pc.Releasing?
    ensures var types := if key.TypeWatch? && key.owned then w.ownedTypes + {key.gvk} else w.ownedTypes;
            Inv(WithCall(w.(ownedTypes := types), t, c), pre)
  {
    hide Successes;
    assert w.holder == Some(t) && Unannounced(w) == {key} && Pending(w) == {};
    var types := if key.TypeWatch? && key.owned then w.ownedTypes + {key.gvk} else w.ownedTypes;
    var after := WithCall(w.(ownedTypes := types), t, c);
    assert Exclusive(after);
    assert Pending(after) == {} && Unannounced(after) == {};
  }

  lemma ReleaseKeepsInv(w: World, pre: set<WatchKey>, t: nat, c: Call)
    requires Inv(w, pre) && t < |w.calls| && w.calls[t].pc.Releasing? && !InCritical(c.pc)
    ensures Inv(WithCall(w.(holder := None), t, c), pre)
  {
    hide Successes;
    assert w.holder == Some(t) && Pending(w) == {} && Unannounced(w) == {};
    var after := WithCall(w.(holder := None), t, c);
    assert Exclusive(after);
  }

  lemma StepKeepsInv(w: World, pre: set<WatchKey>, m: Move)
    requires Inv(w, pre)
    ensures Inv(Step(w, m), pre)
  {
    hide Inv;
    if m.call < |w.calls| {
      var t, c := m.call, w.calls[m.call];
      match c.pc
      case Scanning =>
        OwnStepKeepsInv(w, pre, t, Scanned(c, w.watched));
      case Probing(_) =>
        if c.rest != [] { OwnStepKeepsInv(w, pre, t, Probed(c, m.answer)); }
      case Waiting(key) =>
        if w.holder.None? { AcquireKeepsInv(w, pre, t, c.(pc := Checking(key))); }
      case Checking(key) =>
        if key in w.watched {
          InsideStepKeepsInv(w, pre, t, c.(pc := Releasing(false), handled := c.handled + {key}));
        } else if m.answer == Yes {
          AttemptKeepsInv(w, pre, t, key, c.(pc := Registered(key)), true);
        } else {
          AttemptKeepsInv(w, pre, t, key, c.(pc := Releasing(true)), false);
        }
      case Registered(key) =>
        StoreKeepsInv(w, pre, t, key, c.(pc := Stored(key), handled := c.handled + {key}));
      case Stored(key) =>
        AnnounceKeepsInv(w, pre, t, key, c.(pc := Releasing(false)));
      case Releasing(failed) =>
        ReleaseKeepsInv(w, pre, t, if failed || c.rest == [] then c.(pc := Failed) else Next(c));
      case Done =>
      case Failed =>
    }
  }

  lemma {:induction false} RunKeepsInv(w: World, pre: set<WatchKey>, ms: seq<Move>)
    requires Inv(w, pre)
    ensures Inv(Run(w, ms), pre)
    decreases |ms|
  {
    if ms != [] {
      StepKeepsInv(w, pre, ms[0]);
      RunKeepsInv(Step(w, ms[0]), pre, ms[1..]);
    }
  }

  lemma InitialInv(w: World, pre: set<GroupVersionKind>)
    requires Initial(w, pre)
    ensures Inv(w, PreRegistered(pre))
  {
    forall t | 0 <= t < |w.calls| ensures !InCritical(w.calls[t].pc) {
      assert Fresh(w.calls[t]);
    }
  }

  /**
   * Under any interleaving of any number of calls, with registrations failing at
   * will: no key is registered successfully twice, none is attempted again after
   * its success, and a pre-registered type is never attempted at all.
   */
  lemma AtMostOneWatch(w: World, pre: set<GroupVersionKind>, ms: seq<Move>)
    requires Initial(w, pre)
    ensures var log := Run(w, ms).log;
            && (forall key :: Successes(log, key) <= 1)
            && (forall i, j | 0 <= i < j < |log| && log[i].ok :: log[j].key != log[i].key)
            && (forall a | a in log :: a.key !in PreRegistered(pre))
  {
    InitialInv(w, pre);
    RunKeepsInv(w, PreRegistered(pre), ms);
  }

  /**
   * Whenever no call is between registering and recording, a key is recorded
   * exactly when it was pre-registered or has been registered successfully, and
   * the announced owned types are exactly those registered as owned.
   */
  lemma WatchedExactlyWhen(w: World, pre: set<GroupVersionKind>, ms: seq<Move>)
    requires Initial(w, pre)
    ensures var after := Run(w, ms);
            && (Pending(after) == {} ==>
                  forall key :: key in after.watched <==> key in PreRegistered(pre) || Attempt(key, true) in after.log)
            && (Pending(after) == {} && Unannounced(after) == {} ==>
                  forall g :: g in after.ownedTypes <==> Attempt(TypeWatch(g, true), true) in after.log)
            && (after.holder.None? ==> Pending(after) == {} && Unannounced(after) == {})
  {
    InitialInv(w, pre);
    RunKeepsInv(w, PreRegistered(pre), ms);
    var after := Run(w, ms);
    forall key ensures Successes(after.log, key) > 0 <==> Attempt(key, true) in after.log {
      SuccessIsLogged(after.log, key);
    }
    if Pending(after) == {} {
      hide Successes;
      forall key
        ensures key in after.watched <==> key in PreRegistered(pre) || Attempt(key, true) in after.log
      {
        assert Successes(after.log, key) == if key in after.watched - PreRegistered(pre) + Pending(after) then 1 else 0;
      }
      forall g ensures Attempt(TypeWatch(g, true), true) in after.log ==> TypeWatch(g, true) !in PreRegistered(pre) {
        if Attempt(TypeWatch(g, true), true) in after.log {
          assert Attempt(TypeWatch(g, true), true).key !in PreRegistered(pre);
        }
      }
    }
  }

  // ----- what a finished call has achieved -----

  /** The key a call is dealing with. */
  function Current(c: Call): set<WatchKey> {
    if c.pc.Probing? || c.pc.Waiting? || c.pc.Checking? || c.pc.Registered? || c.pc.Stored? then {c.pc.key} else {}
  }

  /** `items` is what the call was given; what it has passed is watched, excluded, or unavailable. */
  ghost predicate OnTrack(c: Call, items: seq<Item>, watched: set<WatchKey>) {
    && c.handled <= watched
    && |c.rest| <= |items| && c.rest == items[|items| - |c.rest|..]
    && (c.pc.Done? ==> c.rest == [])
    && (c.pc.Probing? || c.pc.Waiting? || InCritical(c.pc) ==>
          c.rest != [] && !c.rest[0].excluded && (Current(c) != {} ==> Current(c) == {KeyOf(c.rest[0])}))
    && (c.pc.Stored? || c.pc == Releasing(false) ==> KeyOf(c.rest[0]) in c.handled)
    && (!c.pc.Failed? && c.pc != Releasing(true) ==> c.seen <= c.handled + c.unavailable + Current(c))
    && (!c.pc.Failed? && c.pc != Releasing(true) ==>
          forall i | 0 <= i < |items| - |c.rest| :: items[i].excluded || KeyOf(items[i]) in c.handled + c.unavailable)
  }

  lemma NextOnTrack(c: Call, d: Call, items: seq<Item>, watched: set<WatchKey>)
    requires OnTrack(c, items, watched) && c.rest != [] && d == Next(d.(rest := c.rest))
    requires c.handled <= d.handled <= watched && c.unavailable <= d.unavailable
    requires d.seen <= d.handled + d.unavailable && !c.pc.Failed? && c.pc != Releasing(true)
    requires c.rest[0].excluded || KeyOf(c.rest[0]) in d.handled + d.unavailable
    ensures OnTrack(d, items, watched)
  {
    var n := |items| - |c.rest|;
    assert items[n..][0] == items[n] && items[n..][1..] == items[n + 1..];
  }

  lemma ScannedOnTrack(c: Call, items: seq<Item>, watched: set<WatchKey>)
    requires OnTrack(c, items, watched) && c.pc.Scanning?
    ensures OnTrack(Scanned(c, watched), items, watched)
  {
    if c.rest != [] {
      var x, d := c.rest[0], Scanned(c, watched);
      if d.pc.Scanning? {
        assert d.(rest := c.rest).(rest := c.rest[1..], pc := Scanning) == d;
        NextOnTrack(c, d, items, watched);
      }
    }
  }

  lemma StepOnTrack(w: World, m: Move, t: nat, items: seq<Item>)
    requires t < |w.calls| && OnTrack(w.calls[t], items, w.watched)
    ensures w.watched <= Step(w, m).watched && |Step(w, m).calls| == |w.calls|
    ensures OnTrack(Step(w, m).calls[t], items, Step(w, m).watched)
  {
    var c := w.calls[t];
    if m.call == t {
      if c.pc.Scanning? {
        ScannedOnTrack(c, items, w.watched);
      } else if c.pc.Probing? && m.answer == No && c.rest != [] {
        NextOnTrack(c, Probed(c, m.answer), items, w.watched);
      } else if c.pc == Releasing(false) && c.rest != [] {
        NextOnTrack(c, Next(c), items, w.watched);
      }
    }
  }

  lemma {:induction false} RunOnTrack(w: World, ms: seq<Move>, t: nat, items: seq<Item>)
    requires t < |w.calls| && OnTrack(w.calls[t], items, w.watched)
    ensures |Run(w, ms).calls| == |w.calls| && OnTrack(Run(w, ms).calls[t], items, Run(w, ms).watched)
    decreases |ms|
  {
    if ms != [] {
      StepOnTrack(w, ms[0], t, items);
      RunOnTrack(Step(w, ms[0]), ms[1..], t, items);
    }
  }

  /**
   * A call that ends without error, whatever other calls did meanwhile, leaves
   * every resource it was given watched, unless its type is excluded or its API
   * was found unavailable.
   */
  lemma DoneMeansWatched(w: World, pre: set<GroupVersionKind>, ms: seq<Move>, t: nat)
    requires Initial(w, pre) && t < |w.calls| && w.calls[t].pc.Scanning?
    ensures var after := Run(w, ms);
            && |after.calls| == |w.calls|
            && (after.calls[t].pc.Done? ==>
                  forall x | x in w.calls[t].rest ::
                      x.excluded || KeyOf(x) in after.watched + after.calls[t].unavailable)
  {
    var items, after := w.calls[t].rest, Run(w, ms);
    assert Fresh(w.calls[t]);
    RunOnTrack(w, ms, t, items);
    if after.calls[t].pc.Done? {
      forall x | x in items ensures x.excluded || KeyOf(x) in after.watched + after.calls[t].unavailable {
        var i :| 0 <= i < |items| && items[i] == x;
      }
    }
  }

  // ----- how a call ends -----

  /** Where every call stands at the start. */
  lemma StartedSays(items: seq<Item>)
    ensures Started(true, items) == Call(items, {}, Scanning, {}, {})
    ensures Started(false, items).pc == Done
  {
  }

  /** One watch for each CRD by name; for other resources one per type, owned unless marked as not managed. */
  lemma KeyOfSays(x: Item)
    ensures x.gvk == GroupVersionKind("apiextensions.k8s.io", "v1", "CustomResourceDefinition") ==>
              KeyOf(x) == CrdWatch(x.name)
    ensures x.gvk != GroupVersionKind("apiextensions.k8s.io", "v1", "CustomResourceDefinition") ==>
              KeyOf(x) == TypeWatch(x.gvk, if x.managedFalse then false else true)
  {
  }

  /** A pre-registered type is never registered as owned again. */
  lemma PreRegisteredAreSpared(w: World, pre: set<GroupVersionKind>, ms: seq<Move>)
    requires Initial(w, pre)
    ensures forall g, ok | g in pre :: Attempt(TypeWatch(g, true), ok) !in Run(w, ms).log
    ensures forall g | g in pre :: TypeWatch(g, true) in Run(w, ms).watched
  {
    AtMostOneWatch(w, pre, ms);
    InitialInv(w, pre);
    RunKeepsInv(w, PreRegistered(pre), ms);
    forall g | g in pre ensures TypeWatch(g, true) in PreRegistered(pre) {}
    forall g, ok | g in pre ensures Attempt(TypeWatch(g, true), ok) !in Run(w, ms).log {
      assert Attempt(TypeWatch(g, true), ok).key == TypeWatch(g, true);
    }
  }

  /** The outside refuses this step: availability cannot be told, or a registration is not accepted. */
  predicate Refuses(w: World, m: Move) {
    && m.call < |w.calls|
    && match w.calls[m.call].pc
       case Probing(_) => m.answer == Fault
       case Checking(key) => key !in w.watched && m.answer != Yes
       case _ => false
  }

  predicate Doomed(c: Call) {
    c.pc.Failed? || c.pc == Releasing(true)
  }

  /** A call that has resources left wherever it deals with one. */
  predicate HasRest(c: Call) {
    c.pc.Probing? || c.pc.Waiting? || InCritical(c.pc) ==> c.rest != []
  }

  lemma StepDooms(w: World, m: Move, t: nat)
    requires t < |w.calls| && HasRest(w.calls[t])
    ensures |Step(w, m).calls| == |w.calls| && HasRest(Step(w, m).calls[t])
    ensures Doomed(Step(w, m).calls[t]) <==> Doomed(w.calls[t]) || (m.call == t && Refuses(w, m))
  {
  }

  /** Some step of call `t` was refused. */
  ghost predicate WasRefused(w: World, ms: seq<Move>, t: nat) {
    exists i | 0 <= i < |ms| :: ms[i].call == t && Refuses(Run(w, ms[..i]), ms[i])
  }

  lemma {:induction false} RunDooms(w: World, ms: seq<Move>, t: nat)
    requires t < |w.calls| && HasRest(w.calls[t])
    ensures |Run(w, ms).calls| == |w.calls| && HasRest(Run(w, ms).calls[t])
    ensures Doomed(Run(w, ms).calls[t]) <==> Doomed(w.calls[t]) || WasRefused(w, ms, t)
    decreases |ms|
  {
    if ms != [] {
      hide Step, Refuses, Doomed, HasRest;
      var n, front := |ms| - 1, ms[..|ms| - 1];
      RunDooms(w, front, t);
      RunBack(w, ms);
      StepDooms(Run(w, front), ms[n], t);
      assert forall i | 0 <= i < n :: front[..i] == ms[..i];
      if WasRefused(w, front, t) {
        var i :| 0 <= i < n && front[i].call == t && Refuses(Run(w, front[..i]), front[i]);
        assert ms[i] == front[i];
      }
    }
  }

  lemma {:induction false} RunBack(w: World, ms: seq<Move>)
    requires ms != []
    ensures Run(w, ms) == Step(Run(w, ms[..|ms| - 1]), ms[|ms| - 1])
    decreases |ms|
  {
    if |ms| > 1 {
      hide Step;
      RunBack(Step(w, ms[0]), ms[1..]);
      assert ms[1..][..|ms| - 2] == ms[..|ms| - 1][1..];
    } else {
      assert ms[..0] == [] && ms[1..] == [];
    }
  }

  /** A call fails exactly when one of its own steps was refused; where nothing is refused no call ever fails. */
  lemma FailsExactlyWhenRefused(w: World, pre: set<GroupVersionKind>, ms: seq<Move>, t: nat)
    requires Initial(w, pre) && t < |w.calls|
    ensures |Run(w, ms).calls| == |w.calls|
    ensures Doomed(Run(w, ms).calls[t]) <==> WasRefused(w, ms, t)
    ensures Run(w, ms).calls[t].pc.Failed? ==> WasRefused(w, ms, t)
    ensures Run(w, ms).calls[t].pc.Done? ==> !WasRefused(w, ms, t)
  {
    assert Fresh(w.calls[t]);
    RunDooms(w, ms, t);
  }

  /** The API of this key was asked for by call `t` and found missing. */
  ghost predicate WasMissing(w: World, ms: seq<Move>, t: nat, key: WatchKey) {
    exists i | 0 <= i < |ms| ::
      && ms[i].call == t && ms[i].answer == No
      && t < |Run(w, ms[..i]).calls| && Run(w, ms[..i]).calls[t].pc == Probing(key)
  }

  lemma StepMisses(w: World, m: Move, t: nat, key: WatchKey)
    requires t < |w.calls| && HasRest(w.calls[t])
    ensures |Step(w, m).calls| == |w.calls|
    ensures key in Step(w, m).calls[t].unavailable <==>
            key in w.calls[t].unavailable || (m.call == t && m.answer == No && w.calls[t].pc == Probing(key))
  {
  }

  lemma {:induction false} UnavailableExactlyWhen(
      w: World, pre: set<GroupVersionKind>, ms: seq<Move>, t: nat, key: WatchKey)
    requires Initial(w, pre) && t < |w.calls|
    ensures |Run(w, ms).calls| == |w.calls|
    ensures key in Run(w, ms).calls[t].unavailable <==> WasMissing(w, ms, t, key)
    decreases |ms|
  {
    assert Fresh(w.calls[t]);
    if ms != [] {
      var n, front := |ms| - 1, ms[..|ms| - 1];
      UnavailableExactlyWhen(w, pre, front, t, key);
      RunDooms(w, front, t);
      RunBack(w, ms);
      StepMisses(Run(w, front), ms[n], t, key);
      hide Run, Step, Initial, HasRest;
      assert front == ms[..n] && forall i | 0 <= i < n :: front[..i] == ms[..i] && front[i] == ms[i];
      MissingSnoc(w, ms, t, key);
    }
  }

  lemma MissingSnoc(w: World, ms: seq<Move>, t: nat, key: WatchKey)
    requires ms != []
    ensures var n, front := |ms| - 1, ms[..|ms| - 1];
            WasMissing(w, ms, t, key) <==>
            || WasMissing(w, front, t, key)
            || (&& ms[n].call == t && ms[n].answer == No
                && t < |Run(w, front).calls| && Run(w, front).calls[t].pc == Probing(key))
  {
    hide Run;
    var n, front := |ms| - 1, ms[..|ms| - 1];
    assert forall i | 0 <= i < n :: front[..i] == ms[..i] && front[i] == ms[i];
    if WasMissing(w, front, t, key) {
      var i :| 0 <= i < n && front[i].call == t && front[i].answer == No
               && t < |Run(w, front[..i]).calls| && Run(w, front[..i]).calls[t].pc == Probing(key);
      assert ms[i] == front[i];
    }
  }

  // ----- calls come to an end -----

  predicate Finished(c: Call) {
    c.pc.Done? || c.pc.Failed?
  }

  function Stage(pc: Pc): nat {
    match pc
    case Scanning => 7
    case Probing(_) => 6
    case Waiting(_) => 5
    case Checking(_) => 4
    case Registered(_) => 3
    case Stored(_) => 2
    case Releasing(_) => 1
    case Done => 0
    case Failed => 0
  }

  /** An upper bound of the steps a call has left. */
  function StepsLeft(c: Call): nat {
    8 * |c.rest| + Stage(c.pc)
  }

  /** A step is taken unless its call has ended or waits for the lock, and it brings that call nearer to its end. */
  lemma StepProgresses(w: World, m: Move)
    requires m.call < |w.calls| && HasRest(w.calls[m.call])
    ensures var c, after := w.calls[m.call], Step(w, m);
            && |after.calls| == |w.calls|
            && (forall t | 0 <= t < |w.calls| && t != m.call :: after.calls[t] == w.calls[t])
            && (Finished(c) || (c.pc.Waiting? && w.holder.Some?) ==> after == w)
            && (!Finished(c) && !(c.pc.Waiting? && w.holder.Some?) ==>
                  StepsLeft(after.calls[m.call]) < StepsLeft(c))
  {
  }

  /** No deadlock: while some call has not ended there is one that can take a step, whatever it is answered. */
  lemma NeverStuck(w: World, pre: set<GroupVersionKind>, ms: seq<Move>, t: nat)
    requires Initial(w, pre) && t < |Run(w, ms).calls| && !Finished(Run(w, ms).calls[t])
    ensures var before := Run(w, ms);
            exists u: nat | u < |before.calls| :: !Finished(before.calls[u]) &&
              forall answer :: Step(before, Move(u, answer)) != before
  {
    var before := Run(w, ms);
    InitialInv(w, pre);
    RunKeepsInv(w, PreRegistered(pre), ms);
    forall u: nat | u < |w.calls| ensures |before.calls| == |w.calls| && HasRest(before.calls[u]) {
      assert Fresh(w.calls[u]);
      RunDooms(w, ms, u);
    }
    RunKeepsCalls(w, ms);
    var u := if before.holder.Some? then before.holder.value else t;
    assert InCritical(before.calls[u].pc) <==> before.holder == Some(u);
    hide Run, Step;
    forall answer ensures Step(before, Move(u, answer)) != before {
      StepProgresses(before, Move(u, answer));
    }
    assert !Finished(before.calls[u]);
  }

  lemma {:induction false} RunKeepsCalls(w: World, ms: seq<Move>)
    ensures |Run(w, ms).calls| == |w.calls|
    decreases |ms|
  {
    if ms != [] {
      RunKeepsCalls(Step(w, ms[0]), ms[1..]);
    }
  }
}
