/**
 * Reverting drift of Deployments: the patch computed from the manifest and the
 * live object, and what applying it leaves. The merge that keeps the live values
 * instead is in `DeploymentMerge`.
 */
module DriftRevert {
  import opened Options
  import opened Json

  const CONTAINERS := ["spec", "template", "spec", "containers"]
  const REPLICAS := ["spec", "replicas"]

  datatype DriftError = NotDeployment | BadContainers | BadReplicas

  datatype Slice = Items(items: seq<Json>) | NoSlice | BadSlice

  /** `NestedSlice`. */
  function NestedSlice(v: Json, path: seq<string>): Slice {
    match Nested(v, path)
    case Missing => NoSlice
    case Mistyped => BadSlice
    case Found(f) => if f.JList? then Items(f.items) else BadSlice
  }

  // ----- the patch of one container -----

  predicate IsEmptyMap(v: Json) {
    v.JMap? && v.fields == map[]
  }

  function MapAt(m: map<string, Json>, k: string): Option<map<string, Json>> {
    if k in m && m[k].JMap? then Some(m[k].fields) else None
  }

  function OrEmpty(m: Option<map<string, Json>>): map<string, Json> {
    if m.Some? then m.value else map[]
  }

  /** One of `requests` and `limits`: the manifest's values, and null for what only the live object has. */
  function MergedField(manifest: map<string, Json>, deployed: map<string, Json>, field: string): map<string, Json> {
    var m, d := OrEmpty(MapAt(manifest, field)), OrEmpty(MapAt(deployed, field));
    m + map k | k in d && k !in m :: JNull
  }

  function WithField(
      patch: map<string, Json>, manifest: map<string, Json>, deployed: map<string, Json>, field: string)
    : map<string, Json>
  {
    var merged := MergedField(manifest, deployed, field);
    if merged == map[] then patch else patch[field := JMap(merged)]
  }

  function ResourcesPatch(manifest: map<string, Json>, deployed: map<string, Json>): map<string, Json> {
    WithField(WithField(map[], manifest, deployed, "requests"), manifest, deployed, "limits")
  }

  function NamedPatch(name: string, resources: Json): Json {
    JMap(map["name" := JString(name), "resources" := resources])
  }

  /** `buildContainerResourcePatch`. */
  function ContainerPatch(obj: map<string, Json>, live: map<string, Json>, name: string): Option<Json> {
    var wanted := "resources" in obj && !IsEmptyMap(obj["resources"]);
    if "resources" !in live then None
    else if !wanted then Some(NamedPatch(name, JNull))
    else if obj["resources"] == live["resources"] then None
    else if obj["resources"].JMap? && live["resources"].JMap?
    then Some(NamedPatch(name, JMap(ResourcesPatch(obj["resources"].fields, live["resources"].fields))))
    else None
  }

  method BuildResourcesPatch(name: string, manifest: Json, deployed: Json) returns (patch: Option<Json>)
    ensures patch == if manifest.JMap? && deployed.JMap?
                     then Some(NamedPatch(name, JMap(ResourcesPatch(manifest.fields, deployed.fields)))) else None
  {
    if !manifest.JMap? || !deployed.JMap? {
      return None;
    }
    var patchResources: map<string, Json> := map[];
    var fields := ["requests", "limits"];
    for i := 0 to |fields|
      invariant i == 0 ==> patchResources == map[]
      invariant i == 1 ==> patchResources == WithField(map[], manifest.fields, deployed.fields, "requests")
      invariant i == 2 ==> patchResources == ResourcesPatch(manifest.fields, deployed.fields)
    {
      var m, d := MapAt(manifest.fields, fields[i]), MapAt(deployed.fields, fields[i]);
      if m.None? && d.None? {
        assert MergedField(manifest.fields, deployed.fields, fields[i]) == map[];
        continue;
      }
      var merged := MergedField(manifest.fields, deployed.fields, fields[i]);
      if merged != map[] {
        patchResources := patchResources[fields[i] := JMap(merged)];
      }
    }
    return Some(NamedPatch(name, JMap(patchResources)));
  }

  /** `matchContainerPatch`: against the first live container of the same name. */
  function MatchPatch(obj: Json, live: seq<Json>): Option<Json> {
    if NameOf(obj).None? then None
    else
      var i := IndexByName(live, NameOf(obj).value);
      if i == |live| then None else ContainerPatch(obj.fields, live[i].fields, NameOf(obj).value)
  }

  method MatchContainerPatch(obj: Json, live: seq<Json>) returns (patch: Option<Json>)
    ensures patch == MatchPatch(obj, live)
  {
    if NameOf(obj).None? {
      return None;
    }
    var name := NameOf(obj).value;
    for i := 0 to |live|
      invariant forall j | 0 <= j < i :: NameOf(live[j]) != Some(name)
    {
      if NameOf(live[i]) != Some(name) {
        continue;
      }
      assert IndexByName(live, name) == i;
      var objMap, oldMap := obj.fields, live[i].fields;
      var objHasResources := "resources" in objMap && !IsEmptyMap(objMap["resources"]);
      var oldHasResources := "resources" in oldMap;
      if oldHasResources && !objHasResources {
        return Some(NamedPatch(name, JNull));
      }
      if objHasResources && oldHasResources && objMap["resources"] != oldMap["resources"] {
        patch := BuildResourcesPatch(name, objMap["resources"], oldMap["resources"]);
        return;
      }
      return None;
    }
    assert IndexByName(live, name) == |live|;
    return None;
  }

  function Patches(objs: seq<Json>, live: seq<Json>): seq<Json> {
    if objs == [] then []
    else
      var p := MatchPatch(objs[0], live);
      (if p.Some? then [p.value] else []) + Patches(objs[1..], live)
  }

  // ----- the whole patch -----

  function ContainerPatches(manifest: Json, live: Json): Result<seq<Json>, DriftError> {
    var objs, olds := NestedSlice(manifest, CONTAINERS), NestedSlice(live, CONTAINERS);
    if objs.BadSlice? || olds.BadSlice? then Err(BadContainers)
    else if objs.NoSlice? || olds.NoSlice? then Ok([])
    else Ok(Patches(objs.items, olds.items))
  }

  predicate IsInt(f: Reading) {
    f.Found? && f.value.JInt?
  }

  function NeedsReplicaPatch(manifest: Json, live: Json): Result<bool, DriftError> {
    var m, l := Nested(manifest, REPLICAS), Nested(live, REPLICAS);
    if !(m.Missing? || IsInt(m)) || !(l.Missing? || IsInt(l)) then Err(BadReplicas)
    else Ok(l.Found? && m.Missing?)
  }

  function PatchData(patches: seq<Json>, replicas: bool): Json {
    var template := map["template" := JMap(map["spec" := JMap(map["containers" := JList(patches)])])];
    JMap(map["spec" := JMap((if patches == [] then map[] else template)
                            + (if replicas then map["replicas" := JNull] else map[]))])
  }

  /** What the cluster holds once the patch, if any is sent, has been applied. */
  function Reverted(manifest: Json, live: Json): Result<Json, DriftError> {
    var patches := ContainerPatches(manifest, live);
    var replicas := NeedsReplicaPatch(manifest, live);
    if patches.Err? then Err(patches.error)
    else if replicas.Err? then Err(replicas.error)
    else if !replicas.value && patches.value == [] then Ok(live)
    else Ok(Patched("", Some(live), PatchData(patches.value, replicas.value)))
  }

  /** The live Deployment on the server. */
  class LiveObject {
    var value: Json

    constructor (value: Json)
      ensures this.value == value
    {
      this.value := value;
    }

    method Patch(patch: Json)
      modifies this
      ensures value == Patched("", Some(old(value)), patch)
    {
      value := Patched("", Some(value), patch);
    }
  }

  method ComputeContainerPatches(manifest: Json, live: Json) returns (r: Result<seq<Json>, DriftError>)
    ensures r == ContainerPatches(manifest, live)
  {
    hide MatchPatch, NestedSlice;
    var objs := NestedSlice(manifest, CONTAINERS);
    if objs.BadSlice? {
      return Err(BadContainers);
    }
    var olds := NestedSlice(live, CONTAINERS);
    if olds.BadSlice? {
      return Err(BadContainers);
    }
    if objs.NoSlice? || olds.NoSlice? {
      return Ok([]);
    }
    var patches: seq<Json> := [];
    for i := 0 to |objs.items|
      invariant patches + Patches(objs.items[i..], olds.items) == Patches(objs.items, olds.items)
    {
      assert objs.items[i..][0] == objs.items[i] && objs.items[i..][1..] == objs.items[i + 1..];
      var patch := MatchContainerPatch(objs.items[i], olds.items);
      if patch.Some? {
        patches := patches + [patch.value];
      }
    }
    assert objs.items[|objs.items|..] == [] && patches + [] == patches;
    return Ok(patches);
  }

  method RevertDeploymentDrift(manifest: Json, manifestIsDeployment: bool, live: LiveObject, liveIsDeployment: bool)
    returns (error: Option<DriftError>)
    modifies live
    ensures !manifestIsDeployment || !liveIsDeployment ==> error == Some(NotDeployment) && live.value == old(live.value)
    ensures manifestIsDeployment && liveIsDeployment ==>
              match Reverted(manifest, old(live.value))
              case Ok(after) => error == None && live.value == after
              case Err(e) => error == Some(e) && live.value == old(live.value)
  {
    if !manifestIsDeployment || !liveIsDeployment {
      return Some(NotDeployment);
    }
    var patches := ComputeContainerPatches(manifest, live.value);
    if patches.Err? {
      return Some(patches.error);
    }
    var replicas := NeedsReplicaPatch(manifest, live.value);
    if replicas.Err? {
      return Some(replicas.error);
    }
    if !replicas.value && |patches.value| == 0 {
      return None;
    }
    live.Patch(PatchData(patches.value, replicas.value));
    return None;
  }
}
