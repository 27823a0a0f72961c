/**
 * The deployer and its cache as the objects that change the cluster, proved to
 * do what `DeploySpec` says while others act between its calls.
 */
module DeployRun {
  import opened Options
  import opened Cluster
  import opened DeploySpec

  /** The API server. */
  class ApiServer {
    var objects: map<Key, Object>
    var lastVersion: nat

    function State(): Server
      reads this
    {
      Server(objects, lastVersion)
    }

    constructor (s: Server)
      ensures State() == s
    {
      objects := s.objects;
      lastVersion := s.lastVersion;
    }

    method Write(content: Manifest, terminating: bool)
      modifies this
      ensures State() == Put(old(State()), content, terminating)
    {
      lastVersion := lastVersion + 1;
      objects := objects[content.key := Object(content, lastVersion, terminating)];
    }

    method Create(m: Manifest) returns (alreadyExists: bool)
      modifies this
      ensures alreadyExists <==> m.key in old(objects)
      ensures State() == if alreadyExists then old(State()) else Put(old(State()), m, false)
    {
      alreadyExists := m.key in objects;
      if !alreadyExists {
        Write(m, false);
      }
    }

    method Apply(m: Manifest)
      modifies this
      ensures State() == Applied(old(State()), m)
    {
      if m.key !in objects {
        Write(m, false);
        return;
      }
      var live := objects[m.key];
      var content := Overlay(live.content, m);
      if content != live.content {
        Write(content, live.terminating);
      }
    }

    method Delete(k: Key)
      modifies this
      ensures State() == Deleted(old(State()), k)
    {
      if k in objects && !objects[k].terminating {
        lastVersion := lastVersion + 1;
        objects := objects[k := Object(objects[k].content, lastVersion, true)];
      }
    }

    /** Others act, in this order. */
    method Suffer(acts: seq<Act>)
      modifies this
      ensures State() == Suffered(old(State()), acts)
    {
      for i := 0 to |acts|
        invariant Suffered(State(), acts[i..]) == Suffered(old(State()), acts)
      {
        assert acts[i..][0] == acts[i] && acts[i..][1..] == acts[i + 1..];
        match acts[i]
        case Write(content, terminating) =>
          Write(content, terminating);
        case Delete(k) =>
          Delete(k);
        case Remove(k) =>
          objects := objects - {k};
      }
    }
  }

  /** The TTL store of fingerprints. */
  class Cache {
    var entries: set<CacheKey>

    constructor ()
      ensures entries == {}
    {
      entries := {};
    }

    method Add(original: Key, version: nat, modified: Manifest)
      modifies this
      ensures entries == old(entries) + {CacheKey(original, version, Fingerprint(modified))}
    {
      entries := entries + {CacheKey(original, version, Fingerprint(modified))};
    }

    method Has(original: Option<Object>, modified: Manifest) returns (hit: bool)
      ensures hit <==> original.Some?
                       && CacheKey(modified.key, original.value.resourceVersion, Fingerprint(modified)) in entries
    {
      hit := original.Some? && CacheKey(modified.key, original.value.resourceVersion, Fingerprint(modified)) in entries;
    }

    method Delete(original: Object, modified: Manifest)
      modifies this
      ensures entries == old(entries) - {CacheKey(modified.key, original.resourceVersion, Fingerprint(modified))}
    {
      entries := entries - {CacheKey(modified.key, original.resourceVersion, Fingerprint(modified))};
    }

    /** Entries whose time is up are gone. */
    method Sync(expired: set<CacheKey>)
      modifies this
      ensures entries == old(entries) - expired
    {
      entries := entries - expired;
    }
  }

  /** What happens around one resource: entries time out, others act before it, and while it is deployed. */
  datatype Turn = Turn(expired: set<CacheKey>, before: seq<Act>, between: Between)

  function Before(w: World, t: Turn): World {
    World(Suffered(w.server, t.before), if w.cache.Some? then Some(w.cache.value - t.expired) else None)
  }

  /** A whole invocation, the i-th resource meeting `turns[i]`. It stops at the first error. */
  function DeployedAll(c: Config, i: Input, w: World, ms: seq<Manifest>, turns: seq<Turn>): Step
    requires |turns| == |ms|
    decreases |ms|
  {
    if ms == [] then Step(w, Ok(true))
    else
      var step := DeployedAmid(c, i.owner, Before(w, turns[0]), Stamped(c, i, ms[0]), turns[0].between);
      if step.outcome.Err? then step else DeployedAll(c, i, step.world, ms[1..], turns[1..])
  }

  /** What one resource of an invocation makes of the world left by those before it. */
  function TurnTaken(c: Config, i: Input, w: World, m: Manifest, t: Turn): Step {
    DeployedAmid(c, i.owner, Before(w, t), Stamped(c, i, m), t.between)
  }

  /**
   * An invocation by its turns: each resource meets the world the one before it
   * left, up to the last one or to the first error, which is the error returned.
   */
  lemma {:induction false} DeployedAllSays(c: Config, i: Input, w: World, ms: seq<Manifest>, turns: seq<Turn>)
    returns (worlds: seq<World>)
    requires |turns| == |ms|
    ensures 1 <= |worlds| <= |ms| + 1 && worlds[0] == w
    ensures forall k | 0 <= k < |worlds| - 1 :: worlds[k + 1] == TurnTaken(c, i, worlds[k], ms[k], turns[k]).world
    ensures forall k | 0 <= k < |worlds| - 2 :: TurnTaken(c, i, worlds[k], ms[k], turns[k]).outcome.Ok?
    ensures var r, n := DeployedAll(c, i, w, ms, turns), |worlds| - 1;
            && r.world == worlds[n]
            && (r.outcome.Ok? ==>
                  n == |ms| && (n > 0 ==> TurnTaken(c, i, worlds[n - 1], ms[n - 1], turns[n - 1]).outcome.Ok?))
            && (r.outcome.Err? ==>
                  n > 0 && TurnTaken(c, i, worlds[n - 1], ms[n - 1], turns[n - 1]).outcome == r.outcome)
    decreases |ms|
  {
    hide DeployedAmid, Stamped, Before;
    worlds := [w];
    if ms != [] {
      var step := TurnTaken(c, i, w, ms[0], turns[0]);
      worlds := [w, step.world];
      if step.outcome.Ok? {
        var rest := DeployedAllSays(c, i, step.world, ms[1..], turns[1..]);
        worlds := [w] + rest;
        assert forall k | 0 < k < |worlds| :: worlds[k] == rest[k - 1];
        assert forall k | 0 < k < |ms| :: ms[k] == ms[1..][k - 1] && turns[k] == turns[1..][k - 1];
      }
    }
  }

  /** An ordering a caller brings along; it may return any list, or fail. */
  type SortFn = seq<Manifest> -> Result<seq<Manifest>, string>

  function Arranged(sortFn: Option<SortFn>, rendered: seq<Manifest>): Result<seq<Manifest>, string> {
    match sortFn case Some(f) => f(rendered) case None => Ok(rendered)
  }

  class Deployer {
    const config: Config
    const cache: Cache?
    const sortFn: Option<SortFn>

    constructor (config: Config, cache: Cache?, sortFn: Option<SortFn>)
      ensures this.config == config && this.cache == cache && this.sortFn == sortFn
    {
      this.config := config;
      this.cache := cache;
      this.sortFn := sortFn;
    }

    function WorldOf(server: ApiServer): World
      reads server, cache
    {
      World(server.State(), if cache == null then None else Some(cache.entries))
    }

    method Deploy(server: ApiServer, input: Input, rendered: seq<Manifest>, turns: seq<Turn>)
      returns (error: Option<DeployError>)
      requires Arranged(sortFn, rendered).Ok? ==> |turns| == |Arranged(sortFn, rendered).value|
      modifies server, cache
      ensures match Arranged(sortFn, rendered)
              case Err(text) => WorldOf(server) == old(WorldOf(server)) && error == Some(SortFailed(text))
              case Ok(resources) =>
                var step := DeployedAll(config, input, old(WorldOf(server)), resources, turns);
                && WorldOf(server) == step.world
                && error == (if step.outcome.Ok? then None else Some(step.outcome.error))
    {
      var resources := rendered;
      if sortFn.Some? {
        var sorted := sortFn.value(rendered);
        if sorted.Err? {
          return Some(SortFailed(sorted.error));
        }
        resources := sorted.value;
      }
      for k := 0 to |resources|
        invariant DeployedAll(config, input, WorldOf(server), resources[k..], turns[k..])
               == DeployedAll(config, input, old(WorldOf(server)), resources, turns)
      {
        assert resources[k..][0] == resources[k] && resources[k..][1..] == resources[k + 1..];
        assert turns[k..][0] == turns[k] && turns[k..][1..] == turns[k + 1..];
        hide DeployedAmid, Stamped, Suffered;
        ghost var w := WorldOf(server);
        if cache != null {
          cache.Sync(turns[k].expired);
        }
        server.Suffer(turns[k].before);
        assert WorldOf(server) == Before(w, turns[k]);
        var r := DeployOne(server, input, resources[k], turns[k].between);
        if r.Err? {
          return Some(r.error);
        }
      }
      return None;
    }

    method DeployOne(server: ApiServer, input: Input, res: Manifest, between: Between)
      returns (r: Result<bool, DeployError>)
      modifies server, cache
      ensures Step(WorldOf(server), r)
                == DeployedAmid(config, input.owner, old(WorldOf(server)), Stamped(config, input, res), between)
    {
      StampingKeepsKey(config, input, res);
      if between.refusals.read.Some? {
        return Err(Refused(res.key, between.refusals.read.value));
      }
      var current := if res.key in server.objects then Some(server.objects[res.key]) else None;
      if current.Some? && Lookup(current.value.content.annotations, config.managedKey) == "false" {
        return Ok(false);
      }
      var obj := if res.key.gvk == CRD then StampCRD(config, res) else StampResource(config, input, res);
      hide StampCRD, StampResource, Fingerprint, Attempted;
      var skip := ShouldSkip(current, obj);
      if skip {
        return Ok(false);
      }
      var outcome := ApplyResource(server, input.owner, obj, current, between);
      if outcome.Err? {
        return Err(outcome.error);
      }
      if cache != null {
        cache.Add(obj.key, outcome.value, obj);
      }
      return Ok(true);
    }

    method ShouldSkip(current: Option<Object>, desired: Manifest) returns (skip: bool)
      modifies cache
      ensures skip <==> current.Some? &&
                        (current.value.terminating ||
                         (cache != null &&
                          CacheKey(desired.key, current.value.resourceVersion, Fingerprint(desired))
                          in old(cache.entries)))
      ensures cache != null && current.Some? && current.value.terminating ==>
                cache.entries == old(cache.entries)
                                 - {CacheKey(desired.key, current.value.resourceVersion, Fingerprint(desired))}
      ensures cache != null && !(current.Some? && current.value.terminating) ==> cache.entries == old(cache.entries)
    {
      if current.Some? && current.value.terminating {
        if cache != null {
          cache.Delete(current.value, desired);
        }
        return true;
      }
      if cache == null {
        return false;
      }
      skip := cache.Has(current, desired);
    }

    /** Everything between the skip check and the cache, working on the copy read at the start. */
    method ApplyResource(
        server: ApiServer, owner: Option<Owner>, obj: Manifest, current: Option<Object>, between: Between)
      returns (outcome: Result<nat, DeployError>)
      modifies server
      ensures Deployment(server.State(), outcome)
                == Attempted(config, owner, old(server.State()), current, obj, between)
    {
      hide Sending, Suffered;
      server.Suffer(between.beforeUpdate);
      var read := current;
      if !CreateOnly(config, obj) && !PassesOwners(config, owner, obj.key.gvk) && current.Some? {
        var kept := NonLegacy(config, current.value.content.owners);
        if kept != current.value.content.owners {
          if between.refusals.update.Some? {
            return Err(Refused(obj.key, between.refusals.update.value));
          }
          if obj.key !in server.objects {
            return Err(NotFound(obj.key));
          }
          if server.objects[obj.key].resourceVersion != current.value.resourceVersion {
            return Err(Conflict(obj.key));
          }
          server.Write(current.value.content.(key := obj.key, owners := kept), server.objects[obj.key].terminating);
          read := Some(server.objects[obj.key]);
        }
      }
      server.Suffer(between.beforeSend);
      if Requests(config, owner, obj) && between.refusals.send.Some? {
        return Err(Refused(obj.key, between.refusals.send.value));
      }
      outcome := Send(server, owner, obj, read);
    }

    /** The create-only path, ownership, merge, and the request itself. */
    method Send(server: ApiServer, owner: Option<Owner>, obj: Manifest, read: Option<Object>)
      returns (outcome: Result<nat, DeployError>)
      modifies server
      ensures Deployment(server.State(), outcome) == Sending(config, owner, old(server.State()), read, obj)
    {
      hide LiveDecides, Dropped, IsLegacy;
      if CreateOnly(config, obj) {
        var exists' := server.Create(obj.(annotations := obj.annotations - {config.managedKey}));
        return Ok(if exists' then NO_VERSION else server.lastVersion);
      }
      var sending := obj;
      if !PassesOwners(config, owner, obj.key.gvk) {
        if !OwnerAllowed(owner.value, obj.key) {
          return Err(OwnerInOtherNamespace(obj.key));
        }
        sending := obj.(owners := map[owner.value.uid := RefTo(owner.value)]);
      }
      if config.mode.OtherMode? {
        return Err(UnsupportedMode(config.mode.name));
      }
      if read.Some? {
        sending := WithoutRules(config, Merged(config, read.value.content, sending));
      } else if config.mode == ModePatch && obj.key in server.objects {
        return Err(AlreadyExists(obj.key));
      }
      server.Apply(sending);
      return Ok(VersionAt(server.State(), obj.key));
    }
  }

  lemma StampingKeepsKey(c: Config, i: Input, m: Manifest)
    ensures Stamped(c, i, m).key == m.key
  {
  }
}
