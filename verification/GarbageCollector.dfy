/** The collector as the object that sweeps the cluster, others acting between its requests. */
module GarbageCollector {
  import opened Options
  import opened Cluster
  import opened DeploySpec
  import opened DeployRun
  import opened CollectionSpec
  import opened CollectionLaws
  import TypeSelection

  function GvkOf(t: TypeSelection.ResourceType): GroupVersionKind {
    GroupVersionKind(t.group, t.version, t.kind)
  }

  predicate HasKind(t: TypeSelection.ResourceType, gvk: GroupVersionKind) {
    gvk.group == t.group && gvk.version == t.version && gvk.kind == t.kind
  }

  /** Some served type of this kind is chosen for the sweep. */
  ghost predicate IsChosen(
      apis: seq<TypeSelection.ApiResourceList>, rules: seq<TypeSelection.Rule>, gvk: GroupVersionKind)
  {
    exists t :: TypeSelection.Chosen(apis, rules, t) && HasKind(t, gvk)
  }

  /** What an undisturbed sweep comes to: exactly the doomed objects are deleted, or it ends at a malformed one. */
  ghost predicate SweptClean(
      g: GcConfig, p: RunParams, types: seq<GroupVersionKind>, before: Server, after: Server,
      r: Result<nat, GcError>, gone: set<Key>)
  {
    && SweptBy(before, after, gone) && Sound(g, p, types, before, gone)
    && (r.Ok? ==> r.value == |gone| && Swept(g, p, types, before, gone))
    && (r.Err? ==> Stumbled(g, p, types, before, r.error))
  }

  class Collector {
    const config: GcConfig

    constructor (config: GcConfig)
      ensures this.config == config
    {
      this.config := config;
    }

    /**
     * `Run`: choose the types from discovery and permissions, then sweep them.
     * Exactly the chosen types are swept; a list that does not parse ends the run
     * before any request. Undisturbed, every doomed object of those types goes.
     */
    method Run(
        server: ApiServer, p: RunParams, apis: seq<TypeSelection.ApiResourceList>, rules: seq<TypeSelection.Rule>,
        turns: nat -> TypeTurn)
      returns (r: Result<nat, GcError>, types: seq<GroupVersionKind>, ghost steps: seq<Tally>)
      requires ValidServer(server.State())
      modifies server
      ensures r.Err? && r.error.MalformedGroupVersion? <==>
                TypeSelection.Malformed(apis, "delete") || TypeSelection.Malformed(apis, "list")
      ensures r.Err? && r.error.MalformedGroupVersion? ==> server.State() == old(server.State()) && steps == []
      ensures !(r.Err? && r.error.MalformedGroupVersion?) ==>
                && (forall gvk :: gvk in types <==> IsChosen(apis, rules, gvk))
                && Sweeps(config, p, old(server.State()), types, turns, steps)
                && server.State() == ServerAfter(old(server.State()), steps)
                && r == (match ErrorOf(steps) case Some(e) => Err(e) case None => Ok(|Deletions(steps)|))
      ensures Undisturbed(turns) && r.Ok? ==>
                && server.State().objects.Keys == old(server.State()).objects.Keys
                && forall k | k in old(server.State()).objects ::
                     if Doomed(config, p, types, old(server.State()), k) then server.State().objects[k].terminating
                     else server.State().objects[k] == old(server.State()).objects[k]
    {
      hide TypeSelection.Chosen, TypeSelection.Malformed, TypeSelection.Preferred;
      types, steps := [], [];
      var selected := TypeSelection.SelectDeletableTypes(apis, rules);
      if selected.Err? {
        return Err(MalformedGroupVersion(selected.error)), types, steps;
      }
      var chosen := selected.value;
      types := seq(|chosen|, i requires 0 <= i < |chosen| => GvkOf(chosen[i]));
      forall gvk ensures gvk in types <==> IsChosen(apis, rules, gvk) {
        if gvk in types {
          var i :| 0 <= i < |types| && types[i] == gvk;
          assert chosen[i] in chosen && HasKind(chosen[i], gvk);
        }
        if IsChosen(apis, rules, gvk) {
          var t :| TypeSelection.Chosen(apis, rules, t) && HasKind(t, gvk);
          var i :| 0 <= i < |chosen| && chosen[i] == t;
          assert types[i] == gvk;
        }
      }
      hide Sweeps, ServerAfter, Doomed;
      ghost var gone;
      r, steps, gone := Sweep(server, p, types, turns);
    }

    /**
     * The sweep over the deletable types, ending with the first error. If nobody
     * acts and no request fails, exactly the doomed objects are deleted.
     */
    method Sweep(server: ApiServer, p: RunParams, types: seq<GroupVersionKind>, turns: nat -> TypeTurn)
      returns (r: Result<nat, GcError>, ghost steps: seq<Tally>, ghost gone: set<Key>)
      requires ValidServer(server.State())
      modifies server
      ensures Sweeps(config, p, old(server.State()), types, turns, steps)
      ensures server.State() == ServerAfter(old(server.State()), steps) && ValidServer(server.State())
      ensures r == (match ErrorOf(steps) case Some(e) => Err(e) case None => Ok(|Deletions(steps)|))
      ensures r.Err? ==> !r.error.MalformedGroupVersion?
      ensures Undisturbed(turns) ==>
                SweptClean(config, p, types, old(server.State()), server.State(), r, gone)
    {
      ghost var before := server.State();
      steps, gone := [], {};
      var total := 0;
      r := Ok(0);
      for i := 0 to |types|
        invariant |steps| == i && SweepsOn(config, p, before, types, turns, steps)
        invariant server.State() == ServerAfter(before, steps)
        invariant ErrorOf(steps) == None && total == |Deletions(steps)|
        invariant r == Ok(0)
      {
        var one: Result<nat, GcError>;
        ghost var t;
        one, t := CollectType(server, p, types[i], turns(i));
        SweptOn(config, p, before, types, turns, steps, t);
        DeletionsAppend(steps, t);
        steps := steps + [t];
        if one.Err? {
          r := Err(one.error);
          break;
        }
        total := total + one.value;
      }
      if r.Ok? {
        r := Ok(total);
      }
      NotOfTypes(config, p, before, types, turns, steps);
      if Undisturbed(turns) {
        gone := UndisturbedSweep(config, p, before, types, turns, steps);
      }
      ghost var acts := SweepIsHistory(config, p, before, types, turns, steps);
      SufferedValid(before, acts);
    }

    /** `collectType`: list the objects of one type and delete the doomed ones. */
    method CollectType(server: ApiServer, p: RunParams, gvk: GroupVersionKind, turn: TypeTurn)
      returns (r: Result<nat, GcError>, ghost t: Tally)
      modifies server
      ensures Collects(config, p, old(server.State()), gvk, turn, t) && server.State() == t.server
      ensures r == (match t.error case Some(e) => Err(e) case None => Ok(|t.deletions|))
    {
      hide ItemsDeleted, Suffered;
      if gvk in config.unremovables || !config.typePredicate(gvk) {
        return Ok(0), Tally(server.State(), None, [], []);
      }
      server.Suffer(turn.before);
      match turn.answer
      case Unlistable =>
        return Ok(0), Tally(server.State(), None, [], []);
      case ListFails(text) =>
        return Err(ListFailed(gvk, text)), Tally(server.State(), Some(ListFailed(gvk, text)), [], []);
      case Lists =>
        var listed := List(server, p, gvk);
        ghost var before := server.State();
        var error: Option<GcError>, deleted: nat;
        ghost var deletions;
        error, deleted, deletions := DeleteResources(server, p, listed, turn.pauses);
        t := ItemsDeleted(config, p, before, listed, turn.pauses, 0);
        ItemsAsked(config, p, before, listed, turn.pauses, 0);
        r := if error.Some? then Err(error.value) else Ok(deleted);
    }

    /** The objects of one type that match the selector, as they are now, in whatever order the server lists them. */
    method List(server: ApiServer, p: RunParams, gvk: GroupVersionKind) returns (listed: seq<Object>)
      ensures ListedBy(config, p, server.State(), gvk, listed)
    {
      hide Matches;
      var pending := set k | k in server.objects && server.objects[k].content.key == k && k.gvk == gvk
                             && Matches(config, p, server.objects[k].content.labels);
      ghost var all := pending;
      listed := [];
      while pending != {}
        invariant pending <= all
        invariant forall o :: o in listed <==>
                    o.content.key in all && o.content.key !in pending && server.objects[o.content.key] == o
        invariant forall i, j | 0 <= i < j < |listed| :: listed[i].content.key != listed[j].content.key
        decreases pending
      {
        var k :| k in pending;
        pending := pending - {k};
        listed := listed + [server.objects[k]];
      }
    }

    /** The deletion loop over the copies. */
    method DeleteResources(server: ApiServer, p: RunParams, items: seq<Object>, pauses: nat -> Pause)
      returns (error: Option<GcError>, deleted: nat, ghost deletions: seq<Deletion>)
      modifies server
      ensures Tally(server.State(), error, items, deletions)
           == ItemsDeleted(config, p, old(server.State()), items, pauses, 0)
      ensures deleted == |deletions|
    {
      hide ItemStep;
      deleted, deletions := 0, [];
      for i := 0 to |items|
        invariant deleted == |deletions|
        invariant Prepended(deletions, ItemsDeleted(config, p, server.State(), items, pauses, i))
               == ItemsDeleted(config, p, old(server.State()), items, pauses, 0)
      {
        ghost var s := server.State();
        var canBeDeleted: Result<bool, GcError>;
        ghost var outcome;
        canBeDeleted, outcome := DeleteItem(server, p, items[i], pauses(i));
        if canBeDeleted.Err? {
          assert deletions + [] == deletions;
          return Some(canBeDeleted.error), deleted, deletions;
        }
        if !canBeDeleted.value {
          continue;
        }
        ghost var rest := ItemsDeleted(config, p, server.State(), items, pauses, i + 1);
        assert deletions + ([outcome.deletion] + rest.deletions) == deletions + [outcome.deletion] + rest.deletions;
        deleted, deletions := deleted + 1, deletions + [outcome.deletion];
      }
      assert deletions + [] == deletions;
      error := None;
    }

    /** One turn of the loop: decide on the copy, and ask for the deletion of whatever has its key by then. */
    method DeleteItem(server: ApiServer, p: RunParams, item: Object, pause: Pause)
      returns (r: Result<bool, GcError>, ghost outcome: ItemOutcome)
      modifies server
      ensures outcome == ItemStep(config, p, old(server.State()), item, pause)
      ensures match outcome
              case Passed => r == Ok(false) && server.State() == old(server.State())
              case Failed(s', e) => r == Err(e) && server.State() == s'
              case Gone(s', _) => r == Ok(true) && server.State() == s'
    {
      hide IsObjectDeletable, Suffered;
      outcome := ItemStep(config, p, server.State(), item, pause);
      var canBeDeleted := IsObjectDeletable(config, p, item.content);
      if canBeDeleted.Err? {
        return Err(canBeDeleted.error), outcome;
      }
      if !canBeDeleted.value {
        return Ok(false), outcome;
      }
      if item.terminating {
        return Ok(false), outcome;
      }
      server.Suffer(pause.acts);
      if pause.refusal.Some? {
        return Err(DeleteFailed(item.content.key, pause.refusal.value)), outcome;
      }
      server.Delete(item.content.key);
      return Ok(true), outcome;
    }
  }
}
