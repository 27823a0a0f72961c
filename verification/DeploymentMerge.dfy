/**
 * Merging live values into a rendered Deployment before it is applied: the
 * counterpart of reverting drift, in which the live object wins.
 */
module DeploymentMerge {
  import opened Options
  import opened Json
  import opened DriftRevert
  import opened DriftLaws

  datatype MergeError = FieldNotSlice | PathMistyped

  datatype Extraction = Containers(items: seq<Json>) | NoContainers | Unreadable(error: MergeError)

  /** `extractContainers`: a missing or null list is no list. */
  function Extracted(v: Json): Extraction {
    match Nested(v, CONTAINERS)
    case Missing => NoContainers
    case Mistyped => Unreadable(PathMistyped)
    case Found(f) =>
      if f.JNull? then NoContainers else if f.JList? then Containers(f.items) else Unreadable(FieldNotSlice)
  }

  /** The value at a path that exists, exchanged in its nested maps. */
  function ReplacedAt(v: Json, path: seq<string>, new': Json): Json
    decreases |path|
  {
    if path == [] then new'
    else if v.JMap? && path[0] in v.fields then
      JMap(v.fields[path[0] := ReplacedAt(v.fields[path[0]], path[1..], new')])
    else v
  }

  /** The live resources of each named container; the last one of a name counts. */
  function ResourceMap(cs: seq<Json>): map<string, Json> {
    if cs == [] then map[]
    else
      var last, before := cs[|cs| - 1], ResourceMap(cs[..|cs| - 1]);
      if NameOf(last).None? then before
      else before[NameOf(last).value := if "resources" in last.fields then last.fields["resources"] else JMap(map[])]
  }

  predicate NonEmptyMap(v: Json) {
    v.JMap? && v.fields != map[]
  }

  function WithResources(c: Json, live: map<string, Json>): Json {
    if NameOf(c).None? || NameOf(c).value !in live then c
    else if NonEmptyMap(live[NameOf(c).value]) then JMap(c.fields["resources" := live[NameOf(c).value]])
    else JMap(c.fields - {"resources"})
  }

  function AllWithResources(cs: seq<Json>, live: map<string, Json>): seq<Json> {
    seq(|cs|, i requires 0 <= i < |cs| => WithResources(cs[i], live))
  }

  /** `SetNestedField` on the replicas: a missing spec is created, a spec that is no map is an error. */
  function ReplicasSet(v: Json, replicas: Json): Option<Json>
    requires v.JMap?
  {
    if "spec" !in v.fields then Some(JMap(v.fields["spec" := JMap(map["replicas" := replicas])]))
    else if v.fields["spec"].JMap?
    then Some(JMap(v.fields["spec" := JMap(v.fields["spec"].fields["replicas" := replicas])]))
    else None
  }

  function ReplicasRemoved(v: Json): Json
    requires v.JMap?
  {
    if "spec" in v.fields && v.fields["spec"].JMap?
    then JMap(v.fields["spec" := JMap(v.fields["spec"].fields - {"replicas"})])
    else v
  }

  datatype Effect = Effect(desired: Json, error: Option<MergeError>)

  function ResourcesMerged(existing: Json, desired: Json): Effect {
    var source, target := Extracted(existing), Extracted(desired);
    if source.Unreadable? then Effect(desired, Some(source.error))
    else if target.Unreadable? then Effect(desired, Some(target.error))
    else if target.NoContainers? then Effect(desired, None)
    else
      var live := if source.Containers? then ResourceMap(source.items) else map[];
      Effect(ReplacedAt(desired, CONTAINERS, JList(AllWithResources(target.items, live))), None)
  }

  function ReplicasMerged(existing: Json, desired: Json): Effect
    requires desired.JMap?
  {
    match Nested(existing, REPLICAS)
    case Mistyped => Effect(desired, Some(PathMistyped))
    case Missing => Effect(ReplicasRemoved(desired), None)
    case Found(replicas) =>
      match ReplicasSet(desired, replicas)
      case None => Effect(desired, Some(PathMistyped))
      case Some(set') => Effect(set', None)
  }

  /** `MergeDeployments`: what the rendered object becomes, and whether the merge was completed. */
  function Merged(existing: Json, desired: Json): Effect
    requires desired.JMap?
  {
    var first := ResourcesMerged(existing, desired);
    if first.error.Some? then first else ReplicasMerged(existing, first.desired)
  }

  // ----- in place -----

  method BuildResourceMap(containers: seq<Json>) returns (result: map<string, Json>)
    ensures result == ResourceMap(containers)
  {
    result := map[];
    for i := 0 to |containers|
      invariant result == ResourceMap(containers[..i])
    {
      assert containers[..i + 1][..i] == containers[..i];
      var name := NameOf(containers[i]);
      if name.None? {
        continue;
      }
      var r := JMap(map[]);
      if "resources" in containers[i].fields {
        r := containers[i].fields["resources"];
      }
      result := result[name.value := r];
    }
    assert containers[..|containers|] == containers;
  }

  /** The container maps are changed one after the other in the list that holds them. */
  method ApplyResourceMap(containers: array<Json>, resourcesByName: map<string, Json>)
    modifies containers
    ensures containers[..] == AllWithResources(old(containers[..]), resourcesByName)
  {
    for i := 0 to containers.Length
      invariant forall j | 0 <= j < i :: containers[j] == WithResources(old(containers[j]), resourcesByName)
      invariant forall j | i <= j < containers.Length :: containers[j] == old(containers[j])
    {
      var name := NameOf(containers[i]);
      if name.None? {
        continue;
      }
      if name.value !in resourcesByName {
        continue;
      }
      var nr := resourcesByName[name.value];
      if !NonEmptyMap(nr) {
        containers[i] := JMap(containers[i].fields - {"resources"});
      } else {
        containers[i] := JMap(containers[i].fields["resources" := nr]);
      }
    }
  }

  /** A rendered object, changed by the merge before it is applied. */
  class RenderedObject {
    var value: Json

    constructor (value: Json)
      ensures this.value == value
    {
      this.value := value;
    }

    method MergeContainerResources(existing: Json) returns (error: Option<MergeError>)
      modifies this
      ensures Effect(value, error) == ResourcesMerged(existing, old(value))
    {
      var source := Extracted(existing);
      if source.Unreadable? {
        return Some(source.error);
      }
      var target := Extracted(value);
      if target.Unreadable? {
        return Some(target.error);
      }
      var resourcesByName: map<string, Json> := map[];
      if source.Containers? {
        resourcesByName := BuildResourceMap(source.items);
      }
      if target.Containers? {
        var containers := new Json[|target.items|](i requires 0 <= i < |target.items| => target.items[i]);
        assert containers[..] == target.items;
        ApplyResourceMap(containers, resourcesByName);
        value := ReplacedAt(value, CONTAINERS, JList(containers[..]));
      }
      return None;
    }

    method MergeDeployments(existing: Json) returns (error: Option<MergeError>)
      requires value.JMap?
      modifies this
      ensures Effect(value, error) == Merged(existing, old(value))
    {
      hide ResourcesMerged;
      ReplacedStaysMap(existing, value);
      error := MergeContainerResources(existing);
      if error.Some? {
        return;
      }
      var replicas := Nested(existing, REPLICAS);
      if replicas.Mistyped? {
        return Some(PathMistyped);
      }
      if replicas.Missing? {
        value := ReplicasRemoved(value);
        return None;
      }
      var set' := ReplicasSet(value, replicas.value);
      if set'.None? {
        return Some(PathMistyped);
      }
      value := set'.value;
      return None;
    }
  }

  lemma ReplacedStaysMap(existing: Json, desired: Json)
    requires desired.JMap?
    ensures ResourcesMerged(existing, desired).desired.JMap?
  {
  }

  // ----- what it leaves -----

  lemma {:induction false} ResourceMapReads(cs: seq<Json>, i: nat)
    requires DistinctNames(cs) && i < |cs|
    ensures NameOf(cs[i]).value in ResourceMap(cs)
    ensures ResourceMap(cs)[NameOf(cs[i]).value] ==
            if "resources" in cs[i].fields then cs[i].fields["resources"] else JMap(map[])
  {
    if i < |cs| - 1 {
      ResourceMapReads(cs[..|cs| - 1], i);
    }
  }

  lemma {:induction false} ResourceMapNames(cs: seq<Json>, name: string)
    ensures name in ResourceMap(cs) <==> Names(cs, Some(name))
  {
    if cs != [] {
      var front := cs[..|cs| - 1];
      ResourceMapNames(front, name);
      assert cs == front + [cs[|cs| - 1]];
      assert forall c :: c in cs <==> c in front || c == cs[|cs| - 1];
    }
  }

  /** The rendered Deployment with the merged containers and replicas, everything else kept. */
  function Rewritten(m: Deployment, containers: seq<Json>, replicas: Option<Json>): Deployment {
    var pod := m.pod["containers" := JList(containers)];
    var template := m.template["spec" := JMap(pod)];
    var spec := m.spec["template" := JMap(template)];
    var final := if replicas.Some? then spec["replicas" := replicas.value] else spec - {"replicas"};
    Deployment(m.root["spec" := JMap(final)], final, template, pod, containers)
  }

  lemma ReplacedContainers(v: Json, m: Deployment, containers: seq<Json>)
    requires Reads(v, m)
    ensures var pod := m.pod["containers" := JList(containers)];
            var template := m.template["spec" := JMap(pod)];
            ReplacedAt(v, CONTAINERS, JList(containers))
                == JMap(m.root["spec" := JMap(m.spec["template" := JMap(template)])])
  {
    var new' := JList(containers);
    var c1, c2, c3 := CONTAINERS[1..], CONTAINERS[1..][1..], CONTAINERS[1..][1..][1..];
    assert c1[0] == "template" && c2[0] == "spec" && c3[0] == "containers" && c3[1..] == [];
    assert ReplacedAt(JMap(m.pod), c3, new') == JMap(m.pod["containers" := new']);
    assert ReplacedAt(JMap(m.template), c2, new') == JMap(m.template["spec" := JMap(m.pod["containers" := new'])]);
    assert ReplacedAt(JMap(m.spec), c1, new') ==
           JMap(m.spec["template" := JMap(m.template["spec" := JMap(m.pod["containers" := new'])])]);
    assert ReplacedAt(v, CONTAINERS, new') == JMap(m.root["spec" := ReplacedAt(JMap(m.spec), c1, new')]);
  }

  lemma RewrittenReads(m: Deployment, containers: seq<Json>, replicas: Option<Json>)
    requires Reads(JMap(m.root), m)
    ensures var r := Rewritten(m, containers, replicas);
            && Reads(JMap(r.root), r)
            && r.root - {"spec"} == m.root - {"spec"}
            && r.spec - {"template", "replicas"} == m.spec - {"template", "replicas"}
            && r.template - {"spec"} == m.template - {"spec"}
            && r.pod - {"containers"} == m.pod - {"containers"}
            && Get(r.spec, "replicas") == replicas
  {
    KeysDiffer();
  }

  lemma ReplicasRead(existing: Json, d: Deployment, root: map<string, Json>, spec: map<string, Json>)
    requires Reads(existing, d)
    ensures var final := if "replicas" in d.spec then spec["replicas" := d.spec["replicas"]] else spec - {"replicas"};
            ReplicasMerged(existing, JMap(root["spec" := JMap(spec)]))
                == Effect(JMap(root["spec" := JMap(final)]), None)
  {
    ReadsPaths(existing, d);
    hide Nested;
    assert forall x: map<string, Json> :: root["spec" := JMap(spec)]["spec" := JMap(x)] == root["spec" := JMap(x)];
  }

  lemma ResourcesRead(existing: Json, d: Deployment, desired: Json, m: Deployment)
    requires Reads(existing, d) && Reads(desired, m)
    ensures ResourcesMerged(existing, desired) ==
            Effect(ReplacedAt(desired, CONTAINERS, JList(AllWithResources(m.containers, ResourceMap(d.containers)))),
                None)
  {
    ExtractedReads(existing, d);
    ExtractedReads(desired, m);
    hide Extracted, ReplacedAt, AllWithResources, ResourceMap;
  }

  /** The merged object, spelled out: containers and replicas from the merge, all else from the manifest. */
  lemma MergedReads(existing: Json, d: Deployment, desired: Json, m: Deployment)
    requires Reads(existing, d) && Reads(desired, m)
    ensures var r := Rewritten(m, AllWithResources(m.containers, ResourceMap(d.containers)), Get(d.spec, "replicas"));
            && Merged(existing, desired) == Effect(JMap(r.root), None) && Reads(JMap(r.root), r)
            && r.root - {"spec"} == m.root - {"spec"}
            && r.spec - {"template", "replicas"} == m.spec - {"template", "replicas"}
            && r.template - {"spec"} == m.template - {"spec"}
            && r.pod - {"containers"} == m.pod - {"containers"}
            && Get(r.spec, "replicas") == Get(d.spec, "replicas")
  {
    var containers := AllWithResources(m.containers, ResourceMap(d.containers));
    RewrittenReads(m, containers, Get(d.spec, "replicas"));
    ResourcesRead(existing, d, desired, m);
    ReplacedContainers(desired, m, containers);
    hide Reads, ReplicasMerged, ReplacedAt, AllWithResources, ResourceMap, ResourcesMerged;
    ReplicasRead(existing, d, m.root,
        m.spec["template" := JMap(m.template["spec" := JMap(m.pod["containers" := JList(containers)])])]);
  }

  lemma ExtractedReads(v: Json, d: Deployment)
    requires Reads(v, d)
    ensures Extracted(v) == Containers(d.containers)
  {
    ReadsPaths(v, d);
    hide Nested;
    assert NestedSlice(v, CONTAINERS) == Items(d.containers);
  }

  /**
   * The live value wins: a container both have ends with the live resources, or
   * none if the live copy has none to speak of.
   */
  lemma LiveResourcesWin(existing: seq<Json>, desired: seq<Json>, i: nat, j: nat)
    requires DistinctNames(existing) && i < |existing| && j < |desired| && NameOf(desired[j]) == NameOf(existing[i])
    ensures var r := WithResources(desired[j], ResourceMap(existing));
            && r.JMap? && r.fields - {"resources"} == desired[j].fields - {"resources"}
            && Get(r.fields, "resources") ==
               if "resources" in existing[i].fields && NonEmptyMap(existing[i].fields["resources"])
               then Some(existing[i].fields["resources"]) else None
  {
    ResourceMapReads(existing, i);
  }

  /** A container the live object does not have is left as rendered. */
  lemma NewContainersAreKept(existing: seq<Json>, c: Json)
    requires !Names(existing, NameOf(c))
    ensures WithResources(c, ResourceMap(existing)) == c
  {
    if NameOf(c).Some? {
      ResourceMapNames(existing, NameOf(c).value);
    }
  }

  /** The last live container of this name. */
  ghost predicate IsLastNamed(cs: seq<Json>, name: string, i: int) {
    0 <= i < |cs| && NameOf(cs[i]) == Some(name) && forall j | i < j < |cs| :: NameOf(cs[j]) != Some(name)
  }

  lemma {:induction false} ResourceMapIsLast(cs: seq<Json>, name: string, i: int)
    requires IsLastNamed(cs, name, i)
    ensures name in ResourceMap(cs)
    ensures ResourceMap(cs)[name] == if "resources" in cs[i].fields then cs[i].fields["resources"] else JMap(map[])
  {
    if i < |cs| - 1 {
      ResourceMapIsLast(cs[..|cs| - 1], name, i);
    }
  }

  lemma {:induction false} LastNamed(cs: seq<Json>, name: string)
    ensures Names(cs, Some(name)) ==> exists i :: IsLastNamed(cs, name, i)
  {
    if cs != [] {
      var front := cs[..|cs| - 1];
      LastNamed(front, name);
      assert cs == front + [cs[|cs| - 1]];
      if NameOf(cs[|cs| - 1]) == Some(name) {
        assert IsLastNamed(cs, name, |cs| - 1);
      } else if i :| IsLastNamed(front, name, i) {
        assert IsLastNamed(cs, name, i);
      }
    }
  }

  /**
   * Any two container lists, names repeated or missing included: a rendered
   * container keeps all but its resources, and these follow the last live
   * container of its name; without one it stays as rendered.
   */
  lemma EveryContainerMerges(existing: seq<Json>, desired: seq<Json>, j: nat)
    requires j < |desired|
    ensures |AllWithResources(desired, ResourceMap(existing))| == |desired|
    ensures var c, r := desired[j], AllWithResources(desired, ResourceMap(existing))[j];
            && (!(c.JMap? && exists name :: FieldOf(c, "name") == Some(JString(name))) ==> r == c)
            && (forall name | FieldOf(c, "name") == Some(JString(name)) ::
                  && ((forall e | e in existing :: FieldOf(e, "name") != Some(JString(name))) ==> r == c)
                  && (forall i | IsLastNamed(existing, name, i) ::
                        && r.JMap? && r.fields - {"resources"} == c.fields - {"resources"}
                        && var live := FieldOf(existing[i], "resources");
                           FieldOf(r, "resources") ==
                           if live.Some? && live.value.JMap? && live.value.fields != map[] then live else None))
  {
    var c := desired[j];
    forall name | FieldOf(c, "name") == Some(JString(name)) ensures NameOf(c) == Some(name) {}
    if NameOf(c).Some? {
      var name := NameOf(c).value;
      ResourceMapNames(existing, name);
      forall i | IsLastNamed(existing, name, i)
        ensures ResourceMap(existing)[name] ==
                if FieldOf(existing[i], "resources").Some? then FieldOf(existing[i], "resources").value else JMap(map[])
      {
        ResourceMapIsLast(existing, name, i);
      }
    }
  }

  /** The way to the containers is blocked. */
  predicate Blocked(v: Json) {
    Nested(v, ["spec", "template", "spec", "containers"]).Mistyped?
  }

  predicate NoList(v: Json) {
    var read := Nested(v, ["spec", "template", "spec", "containers"]);
    read.Found? && !read.value.JNull? && !read.value.JList?
  }

  /** The live replicas cannot be read, or the rendered object has no map to put them in. */
  predicate ReplicasRefused(existing: Json, desired: Json)
    requires desired.JMap?
  {
    var read := Nested(existing, ["spec", "replicas"]);
    read.Mistyped? || (read.Found? && "spec" in desired.fields && !desired.fields["spec"].JMap?)
  }

  /** How a merge ends: the live containers are read first, then the rendered ones, then the replicas. */
  lemma MergeEndsExactly(existing: Json, desired: Json)
    requires desired.JMap?
    ensures Merged(existing, desired).error ==
            if Blocked(existing) then Some(PathMistyped)
            else if NoList(existing) then Some(FieldNotSlice)
            else if Blocked(desired) then Some(PathMistyped)
            else if NoList(desired) then Some(FieldNotSlice)
            else if ReplicasRefused(existing, desired) then Some(PathMistyped)
            else None
    ensures Blocked(existing) || NoList(existing) || Blocked(desired) || NoList(desired) ==>
              Merged(existing, desired).desired == desired
  {
    hide Nested, ResourceMap, AllWithResources;
    ReplacedStaysMap(existing, desired);
  }

  /** Where the rendered object lists no containers only its replicas change: they become the live ones. */
  lemma MergeWithoutContainers(existing: Json, desired: Json)
    requires desired.JMap? && Merged(existing, desired).error.None?
    requires var read := Nested(desired, ["spec", "template", "spec", "containers"]);
             read.Missing? || read == Found(JNull)
    ensures var r, live := Merged(existing, desired).desired, Nested(existing, ["spec", "replicas"]);
            && r.JMap? && r.fields - {"spec"} == desired.fields - {"spec"}
            && (live.Found? ==>
                  && FieldOf(r, "spec").Some? && r.fields["spec"].JMap?
                  && FieldOf(r.fields["spec"], "replicas") == Some(live.value)
                  && r.fields["spec"].fields - {"replicas"} ==
                     (if "spec" in desired.fields && desired.fields["spec"].JMap? then desired.fields["spec"].fields
                      else map[]) - {"replicas"})
            && (live.Missing? ==>
                  if "spec" in desired.fields && desired.fields["spec"].JMap? then
                    r == JMap(desired.fields["spec" := JMap(desired.fields["spec"].fields - {"replicas"})])
                  else r == desired)
  {
    hide Nested, ResourceMap, AllWithResources;
  }

  /** A shared container whose live copy states resources that are empty or no map. */
  ghost predicate StatesNothing(existing: seq<Json>, desired: seq<Json>, i: nat)
    requires i < |existing| && NameOf(existing[i]).Some?
  {
    && Names(desired, NameOf(existing[i]))
    && "resources" in existing[i].fields && !NonEmptyMap(existing[i].fields["resources"])
  }

  lemma MergedName(c: Json, live: map<string, Json>)
    requires NameOf(c).Some?
    ensures NameOf(WithResources(c, live)) == NameOf(c)
  {
    KeysDiffer();
  }

  lemma MergedContainerDrift(existing: seq<Json>, c: Json, i: nat)
    requires DistinctNames(existing) && i < |existing| && NameOf(c) == NameOf(existing[i])
    ensures MatchPatch(WithResources(c, ResourceMap(existing)), existing).Some? <==>
            "resources" in existing[i].fields && !NonEmptyMap(existing[i].fields["resources"])
  {
    MergedName(c, ResourceMap(existing));
    LiveResourcesWin(existing, [c], i, 0);
    hide WithResources, ResourceMap, NameOf;
    assert IndexByName(existing, NameOf(c).value) == i;
  }

  lemma UnsharedContainerDrift(existing: seq<Json>, c: Json)
    requires NameOf(c).Some? && !Names(existing, NameOf(c))
    ensures MatchPatch(WithResources(c, ResourceMap(existing)), existing) == None
  {
    NewContainersAreKept(existing, c);
    hide WithResources, ResourceMap, NameOf;
    assert forall i | 0 <= i < |existing| :: existing[i] in existing && NameOf(existing[i]) != NameOf(c);
    assert IndexByName(existing, NameOf(c).value) == |existing|;
  }

  /**
   * Merging and reverting agree on what drift is: of the merged manifest the
   * live Deployment shows no drift, and reverting against it sends nothing,
   * exactly when no shared live container states empty resources.
   */
  lemma MergeLeavesNoDriftExactlyWhen(existing: Json, d: Deployment, desired: Json, m: Deployment)
    requires Reads(existing, d) && Reads(desired, m) && DistinctNames(d.containers) && DistinctNames(m.containers)
    requires "replicas" in d.spec ==> d.spec["replicas"].JInt?
    ensures var merged := Merged(existing, desired).desired;
            && NeedsReplicaPatch(merged, existing) == Ok(false)
            && ContainerPatches(merged, existing).Ok?
            && (ContainerPatches(merged, existing).value == [] <==>
                forall i | 0 <= i < |d.containers| :: !StatesNothing(d.containers, m.containers, i))
  {
    hide Merged, Rewritten, AllWithResources, ResourceMap, Patches, MatchPatch, StatesNothing;
    MergedReads(existing, d, desired, m);
    var containers := AllWithResources(m.containers, ResourceMap(d.containers));
    var r := Rewritten(m, containers, Get(d.spec, "replicas"));
    RewrittenContainers(m, containers, Get(d.spec, "replicas"));
    SeenDrift(JMap(r.root), r, existing, d);
    NoPatches(containers, d.containers);
    MergedDrift(d.containers, m.containers);
    EachMerged(m.containers, ResourceMap(d.containers));
  }

  lemma RewrittenContainers(m: Deployment, containers: seq<Json>, replicas: Option<Json>)
    ensures Rewritten(m, containers, replicas).containers == containers
  {
  }

  lemma EachMerged(cs: seq<Json>, live: map<string, Json>)
    ensures |AllWithResources(cs, live)| == |cs|
    ensures forall j | 0 <= j < |cs| :: AllWithResources(cs, live)[j] == WithResources(cs[j], live)
  {
  }

  /** What drift detection sees of two Deployments that agree on replicas. */
  lemma SeenDrift(manifest: Json, m: Deployment, live: Json, d: Deployment)
    requires Reads(manifest, m) && Reads(live, d) && Get(m.spec, "replicas") == Get(d.spec, "replicas")
    requires "replicas" in d.spec ==> d.spec["replicas"].JInt?
    ensures NeedsReplicaPatch(manifest, live) == Ok(false)
    ensures ContainerPatches(manifest, live) == Ok(Patches(m.containers, d.containers))
  {
    ReadsPaths(manifest, m);
    ReadsPaths(live, d);
    hide Nested, Patches;
    assert NestedSlice(manifest, CONTAINERS) == Items(m.containers);
    assert NestedSlice(live, CONTAINERS) == Items(d.containers);
  }

  lemma MergedDrift(existing: seq<Json>, desired: seq<Json>)
    requires DistinctNames(existing) && DistinctNames(desired)
    ensures (forall j | 0 <= j < |desired| ::
              MatchPatch(WithResources(desired[j], ResourceMap(existing)), existing).None?) <==>
            forall i | 0 <= i < |existing| :: !StatesNothing(existing, desired, i)
  {
    hide MatchPatch, WithResources, ResourceMap, NameOf;
    forall i, j | 0 <= i < |existing| && 0 <= j < |desired| && NameOf(desired[j]) == NameOf(existing[i])
      ensures MatchPatch(WithResources(desired[j], ResourceMap(existing)), existing).Some? <==>
                StatesNothing(existing, desired, i)
    {
      MergedContainerDrift(existing, desired[j], i);
      assert desired[j] in desired;
    }
    forall j | 0 <= j < |desired| && !Names(existing, NameOf(desired[j]))
      ensures MatchPatch(WithResources(desired[j], ResourceMap(existing)), existing).None?
    {
      UnsharedContainerDrift(existing, desired[j]);
    }
  }

  /** Merging again with the same live object changes nothing. */
  lemma MergeIdempotent(existing: Json, d: Deployment, desired: Json, m: Deployment)
    requires Reads(existing, d) && Reads(desired, m) && DistinctNames(m.containers)
    ensures var once := Merged(existing, desired).desired;
            once.JMap? && Merged(existing, once) == Effect(once, None)
  {
    hide Merged, WithResources, ResourceMap, Rewritten, Reads;
    MergedReads(existing, d, desired, m);
    var live, replicas := ResourceMap(d.containers), Get(d.spec, "replicas");
    var containers := AllWithResources(m.containers, live);
    var once := Rewritten(m, containers, replicas);
    RewrittenContainers(m, containers, replicas);
    MergedReads(existing, d, JMap(once.root), once);
    forall j | 0 <= j < |containers| ensures WithResources(containers[j], live) == containers[j] {
      MergedTwice(m.containers[j], live);
    }
    assert AllWithResources(containers, live) == containers;
    RewrittenTwice(m, containers, replicas);
  }

  lemma RewrittenTwice(m: Deployment, containers: seq<Json>, replicas: Option<Json>)
    ensures Rewritten(Rewritten(m, containers, replicas), containers, replicas) == Rewritten(m, containers, replicas)
  {
    KeysDiffer();
    var once := Rewritten(m, containers, replicas);
    var twice := Rewritten(once, containers, replicas);
    assert twice.pod == once.pod && twice.template == once.template;
    assert twice.spec == once.spec;
    assert twice.root == once.root;
  }

  lemma MergedTwice(c: Json, live: map<string, Json>)
    requires NameOf(c).Some?
    ensures WithResources(WithResources(c, live), live) == WithResources(c, live)
  {
    MergedName(c, live);
    var once := WithResources(c, live);
    assert c.fields - {"resources"} - {"resources"} == c.fields - {"resources"};
    if NameOf(c).value in live && NonEmptyMap(live[NameOf(c).value]) {
      assert once.fields["resources" := live[NameOf(c).value]] == once.fields;
    }
  }
}
