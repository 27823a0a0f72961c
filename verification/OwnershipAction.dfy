/**
 * The dynamic ownership action as the class that keeps the registry of watches.
 * Each method is a run of the protocol in `DynamicWatches`, so everything proved
 * of all interleavings holds of the code as well.
 */
module OwnershipAction {
  import opened Options
  import opened Cluster
  import opened DynamicWatches

  /** The API server and the controller: what they answer, and what they were told. */
  class Outside {
    const answers: nat -> Answer
    var asked: nat
    var log: seq<Attempt>
    var ownedTypes: set<GroupVersionKind>

    constructor (answers: nat -> Answer)
      ensures this.answers == answers && asked == 0 && log == [] && ownedTypes == {}
    {
      this.answers := answers;
      asked, log, ownedTypes := 0, [], {};
    }

    method IsAPIAvailable() returns (a: Answer)
      modifies this`asked
      ensures a == answers(old(asked)) && asked == old(asked) + 1
    {
      a := answers(asked);
      asked := asked + 1;
    }

    method RegisterWatch(key: WatchKey) returns (a: Answer)
      modifies this`asked, this`log
      ensures a == answers(old(asked)) && asked == old(asked) + 1 && log == old(log) + [Attempt(key, a == Yes)]
    {
      a := answers(asked);
      asked := asked + 1;
      log := log + [Attempt(key, a == Yes)];
    }

    method AddDynamicOwnedType(gvk: GroupVersionKind)
      modifies this`ownedTypes
      ensures ownedTypes == old(ownedTypes) + {gvk}
    {
      ownedTypes := ownedTypes + {gvk};
    }
  }

  lemma {:induction false} RunAppend(w: World, ms: seq<Move>, ns: seq<Move>)
    ensures Run(w, ms + ns) == Run(Run(w, ms), ns)
    decreases |ms|
  {
    if ms == [] {
      assert ms + ns == ns;
    } else {
      assert (ms + ns)[1..] == ms[1..] + ns;
      RunAppend(Step(w, ms[0]), ms[1..], ns);
    }
  }

  lemma RunSnoc(w: World, ms: seq<Move>, m: Move)
    ensures Run(w, ms + [m]) == Step(Run(w, ms), m)
  {
    RunAppend(w, ms, [m]);
    assert [m][1..] == [];
    assert Run(Run(w, ms), [m]) == Run(Step(Run(w, ms), m), []);
  }

  lemma RunNothing(w: World)
    ensures Run(w, []) == w
  {
  }

  /** One more move of the history `ms`, leading to `after`. */
  ghost function Follow(w: World, ms: seq<Move>, m: Move, after: World): (r: seq<Move>)
    requires Step(Run(w, ms), m) == after
    ensures Run(w, r) == after
  {
    RunSnoc(w, ms, m);
    ms + [m]
  }

  // ----- a call alone -----

  /** A single call that is about to look at its next resource. */
  ghost predicate Alone(w: World, pc: Pc) {
    w.holder.None? && |w.calls| == 1 && w.calls[0].pc == pc && w.calls[0].rest != []
  }

  /** A registration under the lock, from waiting for it to having released it. */
  ghost function Locked(w: World, key: WatchKey, answer: Answer): World
    requires Alone(w, Waiting(key))
  {
    var c := w.calls[0];
    var done := Next(c).(handled := c.handled + {key});
    if key in w.watched then w.(calls := [done])
    else if answer != Yes then w.(log := w.log + [Attempt(key, false)], calls := [c.(pc := Failed)])
    else
      World(w.watched + {key}, None, w.log + [Attempt(key, true)],
            w.ownedTypes + (if key.TypeWatch? && key.owned then {key.gvk} else {}), [done])
  }

  lemma LockedIsRun(w: World, key: WatchKey, answer: Answer) returns (ms: seq<Move>)
    requires Alone(w, Waiting(key))
    ensures Run(w, ms) == Locked(w, key, answer)
  {
    hide Run;
    RunNothing(w);
    var c := w.calls[0];
    var d := c.(pc := Checking(key));
    var inside := w.(holder := Some(0), calls := [d]);
    ms := Follow(w, [], Move(0, Yes), inside);
    if key in w.watched {
      d := d.(pc := Releasing(false), handled := d.handled + {key});
      ms := Follow(w, ms, Move(0, Yes), inside.(calls := [d]));
    } else {
      var logged := inside.(log := w.log + [Attempt(key, answer == Yes)]);
      if answer != Yes {
        d := d.(pc := Releasing(true));
        ms := Follow(w, ms, Move(0, answer), logged.(calls := [d]));
      } else {
        d := d.(pc := Registered(key));
        ms := Follow(w, ms, Move(0, Yes), logged.(calls := [d]));
        d := d.(pc := Stored(key), handled := d.handled + {key});
        var recorded := logged.(watched := w.watched + {key}, calls := [d]);
        ms := Follow(w, ms, Move(0, Yes), recorded);
        d := d.(pc := Releasing(false));
        var types := if key.TypeWatch? && key.owned then w.ownedTypes + {key.gvk} else w.ownedTypes;
        ms := Follow(w, ms, Move(0, Yes), recorded.(ownedTypes := types, calls := [d]));
        assert w.ownedTypes + {} == w.ownedTypes;
      }
    }
    ms := Follow(w, ms, Move(0, Yes), Locked(w, key, answer));
  }

  datatype Pass = Pass(world: World, asked: nat)

  /** The pass over one resource, `asked` requests having been answered before it. */
  ghost function Passed(w: World, answers: nat -> Answer, asked: nat): Pass
    requires Alone(w, Scanning)
  {
    var c := Scanned(w.calls[0], w.watched);
    var scanned := w.(calls := [c]);
    if c.pc.Waiting? then
      Pass(Locked(scanned, c.pc.key, answers(asked)), asked + if c.pc.key in w.watched then 0 else 1)
    else if c.pc.Probing? then
      var probed := w.(calls := [Probed(c, answers(asked))]);
      if answers(asked) == Yes then Pass(Locked(probed, c.pc.key, answers(asked + 1)), asked + 2)
      else Pass(probed, asked + 1)
    else Pass(scanned, asked)
  }

  lemma PassedIsRun(w: World, answers: nat -> Answer, asked: nat) returns (ms: seq<Move>)
    requires Alone(w, Scanning)
    ensures Run(w, ms) == Passed(w, answers, asked).world
  {
    hide Run;
    RunNothing(w);
    var c := Scanned(w.calls[0], w.watched);
    var scanned := w.(calls := [c]);
    ms := Follow(w, [], Move(0, Yes), scanned);
    if c.pc.Waiting? {
      var ns := LockedIsRun(scanned, c.pc.key, answers(asked));
      RunAppend(w, ms, ns);
      ms := ms + ns;
    } else if c.pc.Probing? {
      var probed := w.(calls := [Probed(c, answers(asked))]);
      ms := Follow(w, ms, Move(0, answers(asked)), probed);
      if answers(asked) == Yes {
        var ns := LockedIsRun(probed, c.pc.key, answers(asked + 1));
        RunAppend(w, ms, ns);
        ms := ms + ns;
      }
    }
  }

  /**
   * Since `before` the log has grown by attempts at keys that were not watched
   * then, and what is watched and announced by exactly those accepted.
   */
  ghost predicate Grown(before: World, after: World) {
    && before.log <= after.log
    && (forall a | a in after.log[|before.log|..] :: a.key !in before.watched)
    && (forall k :: k in after.watched <==> k in before.watched || Attempt(k, true) in after.log[|before.log|..])
    && (forall g :: g in after.ownedTypes <==>
          g in before.ownedTypes || Attempt(TypeWatch(g, true), true) in after.log[|before.log|..])
  }

  ghost predicate Tried(log: seq<Attempt>, key: WatchKey) {
    exists a | a in log :: a.key == key
  }

  /** An API's availability could not be told in one of these answers, or a registration was not accepted. */
  ghost predicate Fails(answers: nat -> Answer, first: nat, last: nat, log: seq<Attempt>) {
    (exists n: nat | first <= n < last :: answers(n) == Fault) || exists a | a in log :: !a.ok
  }

  ghost predicate AnsweredNo(answers: nat -> Answer, first: nat, last: nat) {
    exists n: nat | first <= n < last :: answers(n) == No
  }

  lemma LockedGrows(w: World, key: WatchKey, answer: Answer)
    requires Alone(w, Waiting(key))
    ensures var after := Locked(w, key, answer);
            && after.holder.None? && |after.calls| == 1 && Grown(w, after)
            && after.log[|w.log|..] == if key in w.watched then [] else [Attempt(key, answer == Yes)]
  {
  }

  lemma PassedGrows(w: World, answers: nat -> Answer, asked: nat)
    requires Alone(w, Scanning)
    ensures var p := Passed(w, answers, asked);
            p.asked >= asked && p.world.holder.None? && |p.world.calls| == 1 && Grown(w, p.world)
  {
    var c := Scanned(w.calls[0], w.watched);
    GrownNothing(w, w.(calls := [c]));
    if c.pc.Waiting? {
      LockedGrows(w.(calls := [c]), c.pc.key, answers(asked));
    } else if c.pc.Probing? {
      GrownNothing(w, w.(calls := [Probed(c, answers(asked))]));
      if answers(asked) == Yes {
        LockedGrows(w.(calls := [Probed(c, answers(asked))]), c.pc.key, answers(asked + 1));
      }
    }
    hide Locked;
  }

  lemma GrownNothing(w: World, after: World)
    requires after == w.(calls := after.calls)
    ensures Grown(w, after) && after.log[|w.log|..] == []
  {
  }

  lemma PassedTries(w: World, answers: nat -> Answer, asked: nat)
    requires Alone(w, Scanning)
    ensures var p := Passed(w, answers, asked);
            && w.log <= p.world.log
            && forall k | Tried(p.world.log[|w.log|..], k) ::
                 k == KeyOf(w.calls[0].rest[0]) && !w.calls[0].rest[0].excluded
  {
    var c := Scanned(w.calls[0], w.watched);
    if c.pc.Waiting? {
      LockedGrows(w.(calls := [c]), c.pc.key, answers(asked));
    } else if c.pc.Probing? && answers(asked) == Yes {
      LockedGrows(w.(calls := [Probed(c, answers(asked))]), c.pc.key, answers(asked + 1));
    }
    hide Locked, Grown;
  }

  lemma LockedFails(w: World, key: WatchKey, answer: Answer)
    requires Alone(w, Waiting(key))
    ensures var after := Locked(w, key, answer);
            && |after.calls| == 1 && w.log <= after.log
            && var c, d := w.calls[0], after.calls[0];
               && (d.pc.Failed? <==> exists a | a in after.log[|w.log|..] :: !a.ok)
               && (d.pc.Failed? <==> key !in w.watched && answer != Yes)
               && (!d.pc.Failed? ==> d.pc == Scanning && d.rest == c.rest[1..])
               && d.unavailable == c.unavailable && d.seen == c.seen
  {
    if key !in w.watched {
      assert Locked(w, key, answer).log[|w.log|..] == [Attempt(key, answer == Yes)];
      assert Attempt(key, answer == Yes) in Locked(w, key, answer).log[|w.log|..];
    }
  }

  lemma PassedFails(w: World, answers: nat -> Answer, asked: nat)
    requires Alone(w, Scanning)
    ensures var p := Passed(w, answers, asked);
            && |p.world.calls| == 1 && w.log <= p.world.log
            && var c, d := w.calls[0], p.world.calls[0];
               && (d.pc.Failed? <==> Fails(answers, asked, p.asked, p.world.log[|w.log|..]))
               && (!d.pc.Failed? ==> d.pc == Scanning && d.rest == c.rest[1..])
               && c.unavailable <= d.unavailable && c.seen <= d.seen
               && (forall k | k in d.unavailable - c.unavailable ::
                     k.TypeWatch? && AnsweredNo(answers, asked, p.asked))
  {
    var c := Scanned(w.calls[0], w.watched);
    if c.pc.Waiting? {
      LockedFails(w.(calls := [c]), c.pc.key, answers(asked));
    } else if c.pc.Probing? && answers(asked) == Yes {
      LockedFails(w.(calls := [Probed(c, answers(asked))]), c.pc.key, answers(asked + 1));
    }
    hide Locked;
  }

  lemma PassedCovers(w: World, answers: nat -> Answer, asked: nat)
    requires Alone(w, Scanning) && w.calls[0].seen <= w.watched + w.calls[0].unavailable
    ensures var after := Passed(w, answers, asked).world;
            && |after.calls| == 1 && w.watched <= after.watched
            && (!after.calls[0].pc.Failed? ==>
                  && after.calls[0].seen <= after.watched + after.calls[0].unavailable
                  && var x := w.calls[0].rest[0];
                     x.excluded || KeyOf(x) in after.watched + after.calls[0].unavailable)
  {
  }

  /** What happens in two stretches, one after the other. */
  lemma Stretches(answers: nat -> Answer, a: nat, b: nat, c: nat, log: seq<Attempt>, more: seq<Attempt>)
    requires a <= b <= c
    ensures Fails(answers, a, c, log + more) <==> Fails(answers, a, b, log) || Fails(answers, b, c, more)
    ensures forall k :: Tried(log + more, k) <==> Tried(log, k) || Tried(more, k)
    ensures AnsweredNo(answers, a, c) <==> AnsweredNo(answers, a, b) || AnsweredNo(answers, b, c)
  {
    assert forall x :: x in log + more <==> x in log || x in more;
  }

  lemma GrownTwice(a: World, b: World, c: World)
    requires Grown(a, b) && Grown(b, c)
    ensures Grown(a, c) && c.log[|a.log|..] == b.log[|a.log|..] + c.log[|b.log|..]
  {
    var first, second := b.log[|a.log|..], c.log[|b.log|..];
    assert c.log[|a.log|..] == first + second;
    assert forall x :: x in first + second <==> x in first || x in second;
  }

  /** Registrations were attempted only for these resources. */
  ghost predicate OnlyFor(log: seq<Attempt>, items: seq<Item>) {
    forall k | Tried(log, k) :: exists x | x in items :: !x.excluded && KeyOf(x) == k
  }

  /** The call failed exactly if something was refused, and an API is unavailable only if that was answered. */
  ghost predicate AsAnswered(c: Call, answers: nat -> Answer, first: nat, last: nat, log: seq<Attempt>) {
    && (c.pc.Failed? <==> Fails(answers, first, last, log))
    && (forall k | k in c.unavailable :: k.TypeWatch? && AnsweredNo(answers, first, last))
  }

  /** Unless it failed, all these resources are watched, excluded or of an unavailable API. */
  ghost predicate Covers(c: Call, watched: set<WatchKey>, items: seq<Item>) {
    !c.pc.Failed? ==>
      && c.seen <= watched + c.unavailable
      && forall x | x in items :: x.excluded || KeyOf(x) in watched + c.unavailable
  }

  /** What a stretch of a call alone has done with the resources it has passed. */
  ghost predicate Achieved(w: World, after: World, answers: nat -> Answer, asked: nat, last: nat, items: seq<Item>) {
    && asked <= last && |after.calls| == 1 && Grown(w, after)
    && OnlyFor(after.log[|w.log|..], items)
    && AsAnswered(after.calls[0], answers, asked, last, after.log[|w.log|..])
    && Covers(after.calls[0], after.watched, items)
  }

  lemma AchievedNothing(w: World, answers: nat -> Answer, asked: nat)
    requires |w.calls| == 1 && !w.calls[0].pc.Failed? && w.calls[0].seen == {} == w.calls[0].unavailable
    ensures Achieved(w, w, answers, asked, asked, [])
  {
  }

  lemma PassIsOnlyFor(mid: World, answers: nat -> Answer, last: nat, log: seq<Attempt>, items: seq<Item>)
    requires Alone(mid, Scanning) && OnlyFor(log, items)
    ensures var p := Passed(mid, answers, last);
            mid.log <= p.world.log && OnlyFor(log + p.world.log[|mid.log|..], items + [mid.calls[0].rest[0]])
  {
    PassedGrows(mid, answers, last);
    PassedTries(mid, answers, last);
    hide Passed;
    var x, more := mid.calls[0].rest[0], Passed(mid, answers, last).world.log[|mid.log|..];
    assert forall y :: y in items + [x] <==> y in items || y == x;
    assert forall a :: a in log + more <==> a in log || a in more;
    forall k | Tried(log + more, k) ensures exists y | y in items + [x] :: !y.excluded && KeyOf(y) == k {
      if Tried(log, k) {
        var y :| y in items && !y.excluded && KeyOf(y) == k;
        assert y in items + [x];
      } else {
        assert Tried(more, k) && x in items + [x];
      }
    }
  }

  lemma PassIsAsAnswered(mid: World, answers: nat -> Answer, asked: nat, last: nat, log: seq<Attempt>)
    requires Alone(mid, Scanning) && asked <= last && AsAnswered(mid.calls[0], answers, asked, last, log)
    ensures var p := Passed(mid, answers, last);
            && |p.world.calls| == 1 && mid.log <= p.world.log && last <= p.asked
            && AsAnswered(p.world.calls[0], answers, asked, p.asked, log + p.world.log[|mid.log|..])
  {
    PassedGrows(mid, answers, last);
    PassedFails(mid, answers, last);
    hide Passed;
    var p := Passed(mid, answers, last);
    Stretches(answers, asked, last, p.asked, log, p.world.log[|mid.log|..]);
    hide Fails, AnsweredNo;
  }

  lemma PassCovers(mid: World, answers: nat -> Answer, last: nat, items: seq<Item>)
    requires Alone(mid, Scanning) && Covers(mid.calls[0], mid.watched, items)
    ensures var after := Passed(mid, answers, last).world;
            |after.calls| == 1 && Covers(after.calls[0], after.watched, items + [mid.calls[0].rest[0]])
  {
    PassedFails(mid, answers, last);
    PassedCovers(mid, answers, last);
    hide Passed;
    var x := mid.calls[0].rest[0];
    assert forall y :: y in items + [x] <==> y in items || y == x;
  }

  lemma PassAchieves(w: World, mid: World, answers: nat -> Answer, asked: nat, last: nat, items: seq<Item>)
    requires Alone(mid, Scanning) && Achieved(w, mid, answers, asked, last, items)
    ensures var p := Passed(mid, answers, last);
            Achieved(w, p.world, answers, asked, p.asked, items + [mid.calls[0].rest[0]])
  {
    hide Passed, OnlyFor, AsAnswered, Covers;
    var p := Passed(mid, answers, last);
    PassedGrows(mid, answers, last);
    GrownTwice(w, mid, p.world);
    PassIsOnlyFor(mid, answers, last, mid.log[|w.log|..], items);
    PassIsAsAnswered(mid, answers, asked, last, mid.log[|w.log|..]);
    PassCovers(mid, answers, last, items);
    hide Grown;
  }

  datatype TypeKey = TypeKey(gvk: GroupVersionKind, owned: bool)

  class Action {
    var watched: set<TypeKey>
    var watchedCRDs: set<string>

    constructor (preRegistered: set<GroupVersionKind>)
      ensures Watched() == PreRegistered(preRegistered)
    {
      watched := set g | g in preRegistered :: TypeKey(g, true);
      watchedCRDs := {};
      new;
      assert forall k: WatchKey :: IsWatched(k) <==> k in PreRegistered(preRegistered);
    }

    /** Both registries as one set of keys. */
    function Watched(): (r: set<WatchKey>)
      reads this
    {
      (set k | k in watched :: TypeWatch(k.gvk, k.owned)) + (set n | n in watchedCRDs :: CrdWatch(n))
    }

    /** The protocol's world with this action's registry and a single call in it. */
    ghost function Now(o: Outside, holder: Option<nat>, c: Call): World
      reads this, o
    {
      World(Watched(), holder, o.log, o.ownedTypes, [c])
    }

    predicate IsWatched(key: WatchKey)
      reads this
      ensures IsWatched(key) <==> key in Watched()
    {
      match key
      case TypeWatch(gvk, owned) => TypeKey(gvk, owned) in watched
      case CrdWatch(name) => name in watchedCRDs
    }

    method Record(key: WatchKey)
      modifies this
      ensures Watched() == old(Watched()) + {key}
    {
      match key
      case TypeWatch(gvk, owned) =>
        watched := watched + {TypeKey(gvk, owned)};
      case CrdWatch(name) =>
        watchedCRDs := watchedCRDs + {name};
      assert forall k :: k in Watched() <==> k in old(Watched()) || k == key;
    }

    /** `registerWatchIfNeeded` and `registerCRDWatchIfNeeded`: everything under the lock. */
    method RegisterIfNeeded(o: Outside, key: WatchKey) returns (registered: bool, failed: bool)
      modifies this, o
      ensures var known, answer := key in old(Watched()), o.answers(old(o.asked));
              && (registered <==> !known && answer == Yes) && (failed <==> !known && answer != Yes)
              && o.asked == old(o.asked) + (if known then 0 else 1)
              && o.log == old(o.log) + (if known then [] else [Attempt(key, answer == Yes)])
              && Watched() == old(Watched()) + (if registered then {key} else {})
              && o.ownedTypes == old(o.ownedTypes)
                                 + (if registered && key.TypeWatch? && key.owned then {key.gvk} else {})
    {
      if IsWatched(key) {
        return false, false;
      }
      var answer := o.RegisterWatch(key);
      if answer != Yes {
        return false, true;
      }
      Record(key);
      if key.TypeWatch? && key.owned {
        o.AddDynamicOwnedType(key.gvk);
      }
      return true, false;
    }

    /** The body of the loop of `run`, for one resource. */
    method Visit(o: Outside, res: Item, seenKeys: set<WatchKey>, ghost c: Call)
      returns (seen: set<WatchKey>, failed: bool, ghost d: Call)
      requires c.pc == Scanning && c.rest != [] && c.rest[0] == res && c.seen == seenKeys
      modifies this, o
      ensures Pass(Now(o, None, d), o.asked) == Passed(old(Now(o, None, c)), o.answers, old(o.asked))
      ensures d.seen == seen && (failed <==> d.pc == Failed)
    {
      seen, failed := seenKeys, false;
      d := Passed(Now(o, None, c), o.answers, o.asked).world.calls[0];
      if res.excluded {
        return;
      }
      if res.gvk == CRD {
        var _, crdFailed := RegisterIfNeeded(o, CrdWatch(res.name));
        return seen, crdFailed, d;
      }
      var isOwned := !res.managedFalse;
      var key := TypeWatch(res.gvk, isOwned);
      if key in seenKeys {
        return;
      }
      seen := seen + {key};
      if IsWatched(key) {
        return;
      }
      var available := o.IsAPIAvailable();
      if available == Fault {
        return seen, true, d;
      }
      if available == No {
        return;
      }
      var _, watchFailed := RegisterIfNeeded(o, key);
      failed := watchFailed;
    }

    /**
     * `run`, with no other call in between: a run of the protocol. It fails exactly
     * when the outside refused something, registers only what was asked for and not
     * watched before, records and announces exactly what was accepted, and otherwise
     * leaves every resource watched, excluded or of an API it was told is missing.
     */
    method RunCall(o: Outside, enabled: bool, items: seq<Item>)
      returns (failed: bool, ghost ms: seq<Move>, ghost d: Call)
      modifies this, o
      ensures Now(o, None, d) == Run(old(Now(o, None, Started(enabled, items))), ms)
      ensures failed <==> d.pc == Failed
      ensures !failed ==> d.pc == Done
      ensures var before := old(Now(o, None, Started(enabled, items)));
              if enabled then
                exists done :: done <= items && (!failed ==> done == items)
                               && Achieved(before, Now(o, None, d), o.answers, old(o.asked), o.asked, done)
              else !failed && Now(o, None, d) == before && o.asked == old(o.asked)
    {
      hide Run, Passed, Achieved;
      ghost var w := Now(o, None, Started(enabled, items));
      d, ms, failed := Started(enabled, items), [], false;
      RunNothing(w);
      if !enabled {
        return false, ms, d;
      }
      AchievedNothing(w, o.answers, o.asked);
      var seenKeys: set<WatchKey> := {};
      for i := 0 to |items|
        invariant Now(o, None, d) == Run(w, ms)
        invariant d.pc == Scanning && d.rest == items[i..] && d.seen == seenKeys
        invariant Achieved(w, Now(o, None, d), o.answers, old(o.asked), o.asked, items[..i])
      {
        assert items[i..][0] == items[i] && items[i..][1..] == items[i + 1..];
        ghost var mid, asked := Now(o, None, d), o.asked;
        ghost var ns := PassedIsRun(mid, o.answers, asked);
        PassAchieves(w, mid, o.answers, old(o.asked), asked, items[..i]);
        PassedFails(mid, o.answers, asked);
        assert items[..i] + [items[i]] == items[..i + 1];
        seenKeys, failed, d := Visit(o, items[i], seenKeys, d);
        RunAppend(w, ms, ns);
        ms := ms + ns;
        if failed {
          return failed, ms, d;
        }
      }
      assert items[|items|..] == [] && items[..|items|] == items;
      AchievedEnds(w, Now(o, None, d), o.answers, old(o.asked), o.asked, items);
      d := d.(pc := Done);
      ms := Follow(w, ms, Move(0, Yes), Now(o, None, d));
    }
  }

  lemma AchievedEnds(w: World, after: World, answers: nat -> Answer, asked: nat, last: nat, items: seq<Item>)
    requires Achieved(w, after, answers, asked, last, items) && after.calls[0].pc == Scanning
    ensures Achieved(w, after.(calls := [after.calls[0].(pc := Done)]), answers, asked, last, items)
  {
  }

  /**
   * A call on a new action, alone: every resource it was given is watched
   * afterwards, excluded, or of an unavailable API, if the call succeeds; and no
   * key is registered twice.
   */
  method FirstCall(o: Outside, preRegistered: set<GroupVersionKind>, items: seq<Item>)
    returns (a: Action, failed: bool, ghost unavailable: set<WatchKey>)
    requires o.log == [] && o.ownedTypes == {}
    modifies o
    ensures !failed ==> forall x | x in items :: x.excluded || KeyOf(x) in a.Watched() + unavailable
    ensures forall key :: Successes(o.log, key) <= 1
    ensures forall key :: key in a.Watched() <==> key in PreRegistered(preRegistered) || Attempt(key, true) in o.log
  {
    a := new Action(preRegistered);
    ghost var start := a.Now(o, None, Started(true, items));
    ghost var d, ms;
    failed, ms, d := a.RunCall(o, true, items);
    AtMostOneWatch(start, preRegistered, ms);
    WatchedExactlyWhen(start, preRegistered, ms);
    DoneMeansWatched(start, preRegistered, ms, 0);
    unavailable := d.unavailable;
  }
}
