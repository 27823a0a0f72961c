/** What applying the drift patch achieves on well-typed Deployments, and that once is enough. */
module DriftLaws {
  import opened Options
  import opened Json
  import opened DriftRevert

  // ----- when a patch is refused -----

  /** The containers cannot be read: the way to them is blocked, or they are no list. */
  predicate ContainersUnreadable(v: Json) {
    var read := Nested(v, ["spec", "template", "spec", "containers"]);
    read.Mistyped? || (read.Found? && !read.value.JList?)
  }

  predicate ReplicasUnreadable(v: Json) {
    var read := Nested(v, ["spec", "replicas"]);
    read.Mistyped? || (read.Found? && !read.value.JInt?)
  }

  /** Reverting fails exactly on unreadable containers, or on unreadable replicas where the containers are fine. */
  lemma RevertFailsExactlyWhen(manifest: Json, live: Json)
    ensures Reverted(manifest, live) == Err(BadContainers) <==>
            ContainersUnreadable(manifest) || ContainersUnreadable(live)
    ensures Reverted(manifest, live) == Err(BadReplicas) <==>
            && !ContainersUnreadable(manifest) && !ContainersUnreadable(live)
            && (ReplicasUnreadable(manifest) || ReplicasUnreadable(live))
    ensures Reverted(manifest, live) != Err(NotDeployment)
  {
    hide Nested, Patches, Patched, PatchData;
  }

  lemma {:induction false} NoPatches(objs: seq<Json>, live: seq<Json>)
    ensures Patches(objs, live) == [] <==> forall j | 0 <= j < |objs| :: MatchPatch(objs[j], live).None?
  {
    hide MatchPatch;
    if objs != [] {
      NoPatches(objs[1..], live);
      assert forall j | 0 < j < |objs| :: objs[j] == objs[1..][j - 1];
      assert forall j | 0 <= j < |objs| - 1 :: objs[1..][j] == objs[j + 1];
    }
  }

  /** `c` is the first live container with this name. */
  ghost predicate IsNamed(live: seq<Json>, name: string, i: int) {
    0 <= i < |live| && NameOf(live[i]) == Some(name) && forall j | 0 <= j < i :: NameOf(live[j]) != Some(name)
  }

  /** The live copy holds resources that the manifest's container leaves out or states differently. */
  predicate Differs(obj: Json, live: Json)
    requires obj.JMap? && live.JMap?
  {
    && "resources" in live.fields
    && if "resources" !in obj.fields || obj.fields["resources"] == JMap(map[]) then true
       else
         && obj.fields["resources"].JMap? && live.fields["resources"].JMap?
         && obj.fields["resources"] != live.fields["resources"]
  }

  lemma PatchedExactlyWhen(obj: Json, live: seq<Json>)
    ensures MatchPatch(obj, live).Some? <==>
            exists i :: obj.JMap? && FieldOf(obj, "name").Some? && FieldOf(obj, "name").value.JString?
                        && IsNamed(live, FieldOf(obj, "name").value.s, i) && Differs(obj, live[i])
  {
    if NameOf(obj).Some? {
      var i := IndexByName(live, NameOf(obj).value);
      assert i < |live| ==> IsNamed(live, NameOf(obj).value, i);
      assert forall k | IsNamed(live, NameOf(obj).value, k) :: k == i;
    }
  }

  // ----- well-typed Deployments -----

  predicate IsLeaf(v: Json) {
    v.JBool? || v.JInt? || v.JString?
  }

  /** A resource list: quantities only. */
  predicate IsQuantities(v: Json) {
    v.JMap? && forall k | k in v.fields :: IsLeaf(v.fields[k])
  }

  predicate GoodResources(v: Json) {
    && v.JMap?
    && ("requests" in v.fields ==> IsQuantities(v.fields["requests"]))
    && ("limits" in v.fields ==> IsQuantities(v.fields["limits"]))
  }

  predicate GoodContainer(v: Json) {
    NameOf(v).Some? && ("resources" in v.fields ==> GoodResources(v.fields["resources"]))
  }

  ghost predicate GoodContainers(cs: seq<Json>) {
    && (forall c | c in cs :: GoodContainer(c))
    && (forall i, j | 0 <= i < j < |cs| :: NameOf(cs[i]) != NameOf(cs[j]))
  }

  /** The maps on the way down to the containers. */
  datatype Deployment = Deployment(
    root: map<string, Json>,
    spec: map<string, Json>,
    template: map<string, Json>,
    pod: map<string, Json>,
    containers: seq<Json>)

  ghost predicate Reads(v: Json, d: Deployment) {
    && v == JMap(d.root)
    && "spec" in d.root && d.root["spec"] == JMap(d.spec)
    && "template" in d.spec && d.spec["template"] == JMap(d.template)
    && "spec" in d.template && d.template["spec"] == JMap(d.pod)
    && "containers" in d.pod && d.pod["containers"] == JList(d.containers)
  }

  ghost predicate WellTyped(v: Json, d: Deployment) {
    && Reads(v, d)
    && GoodContainers(d.containers)
    && ("replicas" in d.spec ==> d.spec["replicas"].JInt?)
  }

  lemma ReadsPaths(v: Json, d: Deployment)
    requires Reads(v, d)
    ensures NestedSlice(v, CONTAINERS) == Items(d.containers)
    ensures Nested(v, REPLICAS) == if "replicas" in d.spec then Found(d.spec["replicas"]) else Missing
  {
    var c1, c2, c3 := CONTAINERS[1..], CONTAINERS[1..][1..], CONTAINERS[1..][1..][1..];
    assert c1[0] == "template" && c2[0] == "spec" && c3[0] == "containers" && c3[1..] == [];
    assert Nested(v, CONTAINERS) == Nested(JMap(d.spec), c1);
    assert Nested(JMap(d.spec), c1) == Nested(JMap(d.template), c2);
    assert Nested(JMap(d.template), c2) == Nested(JMap(d.pod), c3);
    assert Nested(JMap(d.pod), c3) == Nested(JList(d.containers), c3[1..]);
    assert REPLICAS[1..][0] == "replicas" && REPLICAS[1..][1..] == [];
    assert Nested(v, REPLICAS) == Nested(JMap(d.spec), REPLICAS[1..]);
  }

  lemma KeysDiffer()
    ensures "name" != "resources" && "requests" != "limits" && "template" != "replicas"
  {
    assert |"name"| != |"resources"| && |"requests"| != |"limits"|;
    assert "template"[0] != "replicas"[0];
  }

  // ----- the patch applied to one container -----

  /** The quantities a container states under `requests` or `limits`; absent and empty are the same. */
  function Quantities(c: Json, field: string): map<string, Json> {
    if c.JMap? && "resources" in c.fields && c.fields["resources"].JMap?
    then OrEmpty(MapAt(c.fields["resources"].fields, field)) else map[]
  }

  lemma PatchField(at: string, t: map<string, Json>, key: string, v: Json)
    requires !v.JNull?
    ensures Patched(at, Some(JMap(t)), JMap(map[key := v])) == JMap(t[key := Patched(key, Get(t, key), v)])
  {
    PatchedMap(at, Some(JMap(t)), map[key := v]);
    hide Patched;
    SameReadings(Patched(at, Some(JMap(t)), JMap(map[key := v])).fields, t[key := Patched(key, Get(t, key), v)]);
  }

  /** The quantities of one field after its patch: exactly the manifest's. */
  lemma PatchedQuantities(m: map<string, Json>, d: map<string, Json>, field: string)
    requires field in m ==> IsQuantities(m[field])
    requires field in d ==> IsQuantities(d[field])
    ensures var merged := MergedField(m, d, field);
            merged != map[] ==>
              Patched(field, Get(d, field), JMap(merged)) == JMap(OrEmpty(MapAt(m, field)))
    ensures MergedField(m, d, field) == map[] ==> OrEmpty(MapAt(m, field)) == map[] == OrEmpty(MapAt(d, field))
  {
    var merged := MergedField(m, d, field);
    var wanted, live := OrEmpty(MapAt(m, field)), OrEmpty(MapAt(d, field));
    if merged == map[] {
      assert wanted.Keys <= merged.Keys;
      assert forall k | k in live :: k in merged;
      assert live.Keys == {};
    } else {
      PatchedMap(field, Get(d, field), merged);
      var r := Patched(field, Get(d, field), JMap(merged));
      forall k ensures Get(r.fields, k) == Get(wanted, k) {
        if k in wanted { assert IsLeaf(wanted[k]); }
      }
      SameReadings(r.fields, wanted);
    }
  }

  lemma ResourcesPatchReads(m: map<string, Json>, d: map<string, Json>, k: string)
    ensures var merged := MergedField(m, d, k);
            Get(ResourcesPatch(m, d), k) ==
            if (k == "requests" || k == "limits") && merged != map[] then Some(JMap(merged)) else None
  {
    KeysDiffer();
    hide MergedField;
  }

  /** One of the two fields after the patch: the manifest's quantities, possibly as an empty map. */
  lemma PatchedResourceField(m: map<string, Json>, d: map<string, Json>, field: string)
    requires GoodResources(JMap(m)) && GoodResources(JMap(d)) && (field == "requests" || field == "limits")
    ensures var r := Patched("resources", Some(JMap(d)), JMap(ResourcesPatch(m, d)));
            && r.JMap?
            && OrEmpty(MapAt(r.fields, field)) == OrEmpty(MapAt(m, field))
            && (field in r.fields ==> IsQuantities(r.fields[field]))
  {
    PatchedQuantities(m, d, field);
    PatchedMap("resources", Some(JMap(d)), ResourcesPatch(m, d));
    ResourcesPatchReads(m, d, field);
    hide Patched, MergedField, ResourcesPatch;
    var r := Patched("resources", Some(JMap(d)), JMap(ResourcesPatch(m, d)));
    assert Get(r.fields, field) ==
           if MergedField(m, d, field) == map[] then Get(d, field) else Some(JMap(OrEmpty(MapAt(m, field))));
  }

  /** The resources map after its patch: the manifest's quantities, everything else as it was. */
  lemma PatchedResources(m: map<string, Json>, d: map<string, Json>)
    requires GoodResources(JMap(m)) && GoodResources(JMap(d))
    ensures var r := Patched("resources", Some(JMap(d)), JMap(ResourcesPatch(m, d)));
            && r.JMap? && GoodResources(r)
            && OrEmpty(MapAt(r.fields, "requests")) == OrEmpty(MapAt(m, "requests"))
            && OrEmpty(MapAt(r.fields, "limits")) == OrEmpty(MapAt(m, "limits"))
            && (forall k | k != "requests" && k != "limits" :: Get(r.fields, k) == Get(d, k))
  {
    hide Patched, MergedField, ResourcesPatch;
    PatchedResourceField(m, d, "requests");
    PatchedResourceField(m, d, "limits");
    PatchedMap("resources", Some(JMap(d)), ResourcesPatch(m, d));
    var r := Patched("resources", Some(JMap(d)), JMap(ResourcesPatch(m, d)));
    forall k | k != "requests" && k != "limits" ensures Get(r.fields, k) == Get(d, k) {
      ResourcesPatchReads(m, d, k);
    }
  }

  /** The container after its patch. */
  function Fixed(c: Json, patch: Option<Json>): Json {
    if patch.Some? then Patched("", Some(c), patch.value) else c
  }

  lemma PatchedContainer(c: map<string, Json>, name: string, resources: Json)
    requires NameOf(JMap(c)) == Some(name)
    ensures Patched("", Some(JMap(c)), NamedPatch(name, resources)) ==
            if resources.JNull? then JMap(c - {"resources"})
            else JMap(c["resources" := Patched("resources", Get(c, "resources"), resources)])
  {
    KeysDiffer();
    var r := Patched("", Some(JMap(c)), NamedPatch(name, resources));
    var want := if resources.JNull? then c - {"resources"}
                else c["resources" := Patched("resources", Get(c, "resources"), resources)];
    PatchedMap("", Some(JMap(c)), map["name" := JString(name), "resources" := resources]);
    assert Patched("name", Get(c, "name"), JString(name)) == JString(name);
    SameReadings(r.fields, want);
  }

  /** How a container looks after reverting, relative to its live form and the manifest's. */
  ghost predicate RevertedTo(after: Json, live: Json, m: Json)
    requires GoodContainer(live) && GoodContainer(m)
  {
    && GoodContainer(after) && NameOf(after) == NameOf(live)
    && after.fields - {"resources"} == live.fields - {"resources"}
    && if "resources" !in live.fields then after == live
       else
         && Quantities(after, "requests") == Quantities(m, "requests")
         && Quantities(after, "limits") == Quantities(m, "limits")
         && if "resources" !in m.fields || m.fields["resources"] == JMap(map[]) then "resources" !in after.fields
            else
              && "resources" in after.fields && after.fields["resources"].JMap?
              && forall k | k != "requests" && k != "limits" ::
                   Get(after.fields["resources"].fields, k) == Get(live.fields["resources"].fields, k)
  }

  lemma ContainerReverted(m: Json, live: Json)
    requires GoodContainer(live) && GoodContainer(m) && NameOf(m) == NameOf(live)
    ensures RevertedTo(Fixed(live, ContainerPatch(m.fields, live.fields, NameOf(m).value)), live, m)
  {
    KeysDiffer();
    var name := NameOf(m).value;
    var patch := ContainerPatch(m.fields, live.fields, name);
    if patch.Some? {
      PatchedContainer(live.fields, name, patch.value.fields["resources"]);
      if !patch.value.fields["resources"].JNull? {
        PatchedResources(m.fields["resources"].fields, live.fields["resources"].fields);
      }
    }
    var after := Fixed(live, patch);
    assert (after.fields - {"resources"}).Keys == (live.fields - {"resources"}).Keys;
  }

  // ----- the patch applied to the list of containers -----

  function PatchFor(ps: seq<Json>, name: string): Option<Json> {
    var i := IndexByName(ps, name);
    if i < |ps| then Some(ps[i]) else None
  }

  ghost predicate IsNamedPatch(p: Json) {
    exists name: string, r: Json :: p == NamedPatch(name, r)
  }

  lemma NamedPatchName(name: string, r: Json)
    ensures NameOf(NamedPatch(name, r)) == Some(name)
  {
    KeysDiffer();
  }

  ghost predicate DistinctNames(cs: seq<Json>) {
    && (forall i | 0 <= i < |cs| :: NameOf(cs[i]).Some?)
    && (forall i, j | 0 <= i < j < |cs| :: NameOf(cs[i]) != NameOf(cs[j]))
  }

  /** A named patch applied to the element of that name leaves the name alone. */
  lemma PatchKeepsName(t: Json, p: Json)
    requires IsNamedPatch(p) && NameOf(t).Some? && NameOf(t) == NameOf(p)
    ensures NameOf(Patched("", Some(t), p)) == NameOf(t)
  {
    var r: Json, n: string :| p == NamedPatch(n, r);
    NamedPatchName(n, r);
    PatchedContainer(t.fields, n, r);
    KeysDiffer();
  }

  lemma PatchedItemsStep(ts: seq<Json>, ps: seq<Json>, bound: Json)
    requires ps != [] && (forall p | p in ps :: p < bound) && DistinctNames(ts)
    requires IsNamedPatch(ps[0]) && NameOf(ps[0]).Some? && Names(ts, NameOf(ps[0]))
    ensures forall p | p in ps[1..] :: p < bound
    ensures var i := IndexByName(ts, NameOf(ps[0]).value);
            && i < |ts| && NameOf(ts[i]) == NameOf(ps[0])
            && NameOf(Patched("", Some(ts[i]), ps[0])) == NameOf(ts[i])
            && PatchedItems(ts, ps, bound) == PatchedItems(ts[i := Patched("", Some(ts[i]), ps[0])], ps[1..], bound)
  {
    hide Patched;
    assert forall p | p in ps[1..] :: p in ps;
    var i := IndexByName(ts, NameOf(ps[0]).value);
    var t :| t in ts && NameOf(t) == NameOf(ps[0]);
    PatchKeepsName(ts[i], ps[0]);
  }

  /** Element by element, a keyed merge is the patch of that name applied to it. */
  lemma {:induction false} ItemsPatched(ts: seq<Json>, ps: seq<Json>, bound: Json)
    requires forall p | p in ps :: p < bound
    requires DistinctNames(ts) && DistinctNames(ps)
    requires forall p | p in ps :: IsNamedPatch(p) && Names(ts, NameOf(p))
    ensures var rs := PatchedItems(ts, ps, bound);
            && |rs| == |ts|
            && forall i | 0 <= i < |ts| :: rs[i] == Fixed(ts[i], PatchFor(ps, NameOf(ts[i]).value))
    decreases |ps|
  {
    hide Patched, NameOf, IsNamedPatch, PatchFor, IndexByName, Fixed, Names;
    if ps == [] {
      assert PatchedItems(ts, ps, bound) == ts;
      forall i | 0 <= i < |ts| ensures ts[i] == Fixed(ts[i], PatchFor([], NameOf(ts[i]).value)) {
        NotPatched(ts[i]);
      }
    } else {
      hide PatchedItems;
      assert ps[0] in ps && forall q | q in ps[1..] :: q in ps;
      PatchedItemsStep(ts, ps, bound);
      var i := IndexByName(ts, NameOf(ps[0]).value);
      var ts' := ts[i := Patched("", Some(ts[i]), ps[0])];
      SameNames(ts, ts', ps[1..]);
      ItemsPatched(ts', ps[1..], bound);
      forall j | 0 <= j < |ts|
        ensures PatchedItems(ts, ps, bound)[j] == Fixed(ts[j], PatchFor(ps, NameOf(ts[j]).value))
      {
        ItemPatched(ts, ps, i, j);
      }
    }
  }

  lemma NotPatched(t: Json)
    requires NameOf(t).Some?
    ensures Fixed(t, PatchFor([], NameOf(t).value)) == t
  {
    hide NameOf, Patched;
    PatchForUnnamed([], NameOf(t).value);
  }

  /** Elements that keep their names keep being distinct, and found. */
  lemma SameNames(ts: seq<Json>, ts': seq<Json>, ps: seq<Json>)
    requires |ts'| == |ts| && forall j | 0 <= j < |ts| :: NameOf(ts'[j]) == NameOf(ts[j])
    requires DistinctNames(ts) && forall p | p in ps :: Names(ts, NameOf(p))
    ensures DistinctNames(ts') && forall p | p in ps :: Names(ts', NameOf(p))
  {
    hide NameOf;
    forall q | q in ps ensures Names(ts', NameOf(q)) {
      var t :| t in ts && NameOf(t) == NameOf(q);
      var j :| 0 <= j < |ts| && ts[j] == t;
      assert ts'[j] in ts';
    }
  }

  /** The first patch and the rest, seen from one element. */
  lemma ItemPatched(ts: seq<Json>, ps: seq<Json>, i: nat, j: nat)
    requires ps != [] && i < |ts| && j < |ts| && DistinctNames(ts) && DistinctNames(ps)
    requires (forall p | p in ps :: IsNamedPatch(p)) && NameOf(ts[i]) == NameOf(ps[0])
    requires NameOf(Patched("", Some(ts[i]), ps[0])) == NameOf(ts[i])
    ensures var t := if j == i then Patched("", Some(ts[i]), ps[0]) else ts[j];
            Fixed(t, PatchFor(ps[1..], NameOf(t).value)) == Fixed(ts[j], PatchFor(ps, NameOf(ts[j]).value))
  {
    hide Patched, NameOf, IsNamedPatch, PatchFor;
    var p, rest := ps[0], ps[1..];
    assert [p] + rest == ps && p in ps && ts[j] in ts && ts[i] in ts;
    PatchForCons(p, rest, NameOf(ts[j]).value);
    if j == i {
      assert !Names(rest, NameOf(p));
      PatchForUnnamed(rest, NameOf(p).value);
    }
  }

  ghost predicate Names(cs: seq<Json>, name: Option<string>) {
    exists c | c in cs :: NameOf(c) == name
  }

  /** Each emitted patch is for one manifest container that the live object also has, and for no other patch's. */
  lemma {:induction false} PatchesNamed(objs: seq<Json>, live: seq<Json>)
    requires forall i, j | 0 <= i < j < |objs| :: NameOf(objs[i]) != NameOf(objs[j])
    ensures forall p | p in Patches(objs, live) ::
              IsNamedPatch(p) && NameOf(p).Some? && Names(live, NameOf(p)) && Names(objs, NameOf(p))
    ensures var ps := Patches(objs, live); forall i, j | 0 <= i < j < |ps| :: NameOf(ps[i]) != NameOf(ps[j])
  {
    if objs != [] {
      PatchesNamed(objs[1..], live);
      MatchedPatchName(objs[0], live);
      hide MatchPatch, NameOf, IsNamedPatch;
      assert objs[0] in objs && forall o | o in objs[1..] :: o in objs;
      assert Names(objs, NameOf(objs[0]));
      var rest := Patches(objs[1..], live);
      forall q | q in rest ensures NameOf(q) != NameOf(objs[0]) && Names(objs, NameOf(q)) {
        var o :| o in objs[1..] && NameOf(o) == NameOf(q);
      }
      PatchesCons(objs, live);
    }
  }

  lemma PatchesCons(objs: seq<Json>, live: seq<Json>)
    requires objs != []
    ensures var p, rest := MatchPatch(objs[0], live), Patches(objs[1..], live);
            Patches(objs, live) == if p.Some? then [p.value] + rest else rest
  {
  }

  lemma PatchForCons(x: Json, xs: seq<Json>, name: string)
    ensures PatchFor([x] + xs, name) == if NameOf(x) == Some(name) then Some(x) else PatchFor(xs, name)
  {
    IndexByNameCons(x, xs, name);
  }

  lemma PatchForUnnamed(xs: seq<Json>, name: string)
    requires !Names(xs, Some(name))
    ensures PatchFor(xs, name) == None
  {
  }

  lemma IndexByNameCons(x: Json, xs: seq<Json>, name: string)
    ensures IndexByName([x] + xs, name) == if NameOf(x) == Some(name) then 0 else 1 + IndexByName(xs, name)
  {
    assert ([x] + xs)[1..] == xs;
  }

  /** What matching the manifest container of this name gives. */
  function WantedPatch(objs: seq<Json>, live: seq<Json>, name: string): Option<Json> {
    var i := IndexByName(objs, name);
    if i < |objs| then MatchPatch(objs[i], live) else None
  }

  lemma WantedPatchCons(objs: seq<Json>, live: seq<Json>, name: string)
    requires objs != []
    ensures WantedPatch(objs, live, name) ==
            if NameOf(objs[0]) == Some(name) then MatchPatch(objs[0], live) else WantedPatch(objs[1..], live, name)
  {
    hide MatchPatch, NameOf;
    IndexByNameCons(objs[0], objs[1..], name);
    assert [objs[0]] + objs[1..] == objs;
  }

  lemma RestDoesNotAnswer(objs: seq<Json>, live: seq<Json>)
    requires forall i, j | 0 <= i < j < |objs| :: NameOf(objs[i]) != NameOf(objs[j])
    requires objs != [] && NameOf(objs[0]).Some?
    ensures PatchFor(Patches(objs[1..], live), NameOf(objs[0]).value) == None
  {
    PatchesNamed(objs[1..], live);
    hide MatchPatch, NameOf, IsNamedPatch, Patches;
    assert !Names(objs[1..], NameOf(objs[0]));
    PatchForUnnamed(Patches(objs[1..], live), NameOf(objs[0]).value);
  }

  /** The patch list answers for a name what matching that manifest container gave. */
  lemma {:induction false} PatchesAnswer(objs: seq<Json>, live: seq<Json>, name: string)
    requires forall i, j | 0 <= i < j < |objs| :: NameOf(objs[i]) != NameOf(objs[j])
    ensures PatchFor(Patches(objs, live), name) == WantedPatch(objs, live, name)
  {
    if objs != [] {
      PatchesAnswer(objs[1..], live, name);
      PatchesCons(objs, live);
      MatchedPatchName(objs[0], live);
      WantedPatchCons(objs, live, name);
      if NameOf(objs[0]) == Some(name) {
        RestDoesNotAnswer(objs, live);
      }
      hide *;
      var p, rest := MatchPatch(objs[0], live), Patches(objs[1..], live);
      if p.Some? {
        PatchForCons(p.value, rest, name);
      }
    }
  }

  lemma MatchedPatchName(obj: Json, live: seq<Json>)
    ensures var p := MatchPatch(obj, live);
            p.Some? ==> IsNamedPatch(p.value) && NameOf(p.value) == NameOf(obj) && NameOf(obj).Some?
                        && exists t | t in live :: NameOf(t) == NameOf(obj)
  {
    KeysDiffer();
    var p := MatchPatch(obj, live);
    if p.Some? {
      assert live[IndexByName(live, NameOf(obj).value)] in live;
    }
  }

  // ----- the whole object -----

  /** The live container after reverting against the manifest's containers. */
  function RevertedContainer(objs: seq<Json>, live: seq<Json>, i: nat): Json
    requires i < |live|
  {
    if NameOf(live[i]).None? then live[i] else Fixed(live[i], WantedPatch(objs, live, NameOf(live[i]).value))
  }

  function RevertedContainers(objs: seq<Json>, live: seq<Json>): seq<Json> {
    seq(|live|, i requires 0 <= i < |live| => RevertedContainer(objs, live, i))
  }

  /** The live Deployment with its containers and replicas replaced, everything else kept. */
  function Rebuilt(d: Deployment, containers: seq<Json>, dropReplicas: bool): Deployment {
    var pod := d.pod["containers" := JList(containers)];
    var template := d.template["spec" := JMap(pod)];
    var spec := d.spec["template" := JMap(template)] - (if dropReplicas then {"replicas"} else {});
    Deployment(d.root["spec" := JMap(spec)], spec, template, pod, containers)
  }

  lemma PatchTemplate(d: Deployment, patches: seq<Json>)
    requires Reads(JMap(d.root), d)
    ensures var containers := Patched("containers", Some(JList(d.containers)), JList(patches));
            && containers.JList?
            && Patched("template", Some(JMap(d.template)),
                JMap(map["spec" := JMap(map["containers" := JList(patches)])]))
            == JMap(Rebuilt(d, containers.items, false).template)
  {
    var pod := map["containers" := JList(patches)];
    PatchField("spec", d.pod, "containers", JList(patches));
    PatchField("template", d.template, "spec", JMap(pod));
  }

  lemma PatchSpec(d: Deployment, patches: seq<Json>, dropReplicas: bool)
    requires Reads(JMap(d.root), d)
    ensures var containers := if patches == [] then d.containers
                              else Patched("containers", Some(JList(d.containers)), JList(patches)).items;
            Patched("", Some(JMap(d.root)), PatchData(patches, dropReplicas))
                == JMap(Rebuilt(d, containers, dropReplicas).root)
  {
    KeysDiffer();
    PatchTemplate(d, patches);
    RebuiltSame(d);
    var data := PatchData(patches, dropReplicas).fields["spec"];
    PatchField("", d.root, "spec", data);
    PatchedMap("spec", Some(JMap(d.spec)), data.fields);
    hide Patched;
    var containers := if patches == [] then d.containers
                      else Patched("containers", Some(JList(d.containers)), JList(patches)).items;
    var r := Rebuilt(d, containers, dropReplicas);
    var after := Patched("spec", Some(JMap(d.spec)), data).fields;
    assert r.template == Rebuilt(d, containers, false).template;
    forall k ensures Get(after, k) == Get(r.spec, k) {
      if k == "template" {
      } else if k == "replicas" {
      } else {
        assert k !in data.fields;
      }
    }
    SameReadings(after, r.spec);
  }

  lemma RevertedContainerIs(objs: seq<Json>, live: seq<Json>, i: nat)
    requires DistinctNames(objs) && DistinctNames(live) && i < |live|
    ensures |RevertedContainers(objs, live)| == |live|
    ensures RevertedContainers(objs, live)[i] == Fixed(live[i], PatchFor(Patches(objs, live), NameOf(live[i]).value))
  {
    PatchesAnswer(objs, live, NameOf(live[i]).value);
    hide Fixed, Patches, PatchFor, WantedPatch;
  }

  lemma PatchedList(live: seq<Json>, patches: seq<Json>)
    requires patches != []
    ensures forall p | p in patches :: p < JList(patches)
    ensures Patched("containers", Some(JList(live)), JList(patches))
              == JList(PatchedItems(live, patches, JList(patches)))
  {
  }

  lemma GoodContainersNamed(cs: seq<Json>)
    requires GoodContainers(cs)
    ensures DistinctNames(cs)
  {
    forall i | 0 <= i < |cs| ensures NameOf(cs[i]).Some? {
      assert cs[i] in cs && GoodContainer(cs[i]);
    }
  }

  lemma ContainersReverted(objs: seq<Json>, live: seq<Json>)
    requires GoodContainers(objs) && GoodContainers(live)
    ensures var patches := Patches(objs, live);
            RevertedContainers(objs, live) ==
            if patches == [] then live else Patched("containers", Some(JList(live)), JList(patches)).items
  {
    var patches := Patches(objs, live);
    GoodContainersNamed(objs);
    GoodContainersNamed(live);
    PatchesNamed(objs, live);
    assert DistinctNames(patches) by {
      assert forall i | 0 <= i < |patches| :: patches[i] in patches;
    }
    assert |RevertedContainers(objs, live)| == |live|;
    hide *;
    forall i | 0 <= i < |live|
      ensures RevertedContainers(objs, live)[i] == Fixed(live[i], PatchFor(patches, NameOf(live[i]).value))
      ensures patches == [] ==> RevertedContainers(objs, live)[i] == live[i]
    {
      RevertedContainerIs(objs, live, i);
      if patches == [] { NothingFixed(live[i], NameOf(live[i]).value); }
    }
    if patches != [] {
      PatchedList(live, patches);
      ItemsPatched(live, patches, JList(patches));
    }
  }

  lemma NothingFixed(c: Json, name: string)
    ensures Fixed(c, PatchFor([], name)) == c
  {
  }

  lemma RevertedSends(manifest: Json, m: Deployment, live: Json, d: Deployment)
    requires WellTyped(manifest, m) && WellTyped(live, d)
    ensures var patches := Patches(m.containers, d.containers);
            var drop := "replicas" !in m.spec && "replicas" in d.spec;
            Reverted(manifest, live) ==
            Ok(if !drop && patches == [] then live else Patched("", Some(live), PatchData(patches, drop)))
  {
    ReadsPaths(manifest, m);
    ReadsPaths(live, d);
    hide Patched, Patches, Nested, NestedSlice, PatchData;
    assert NestedSlice(manifest, CONTAINERS) == Items(m.containers);
    assert ContainerPatches(manifest, live) == Ok(Patches(m.containers, d.containers));
  }

  /** The reverted object, spelled out. */
  lemma RevertedReads(manifest: Json, m: Deployment, live: Json, d: Deployment)
    requires WellTyped(manifest, m) && WellTyped(live, d)
    ensures var r := Rebuilt(d, RevertedContainers(m.containers, d.containers), "replicas" !in m.spec);
            && Reverted(manifest, live) == Ok(JMap(r.root)) && Reads(JMap(r.root), r)
  {
    hide Patched, Patches, RevertedContainers, Nested, Rebuilt, PatchData, Reverted, GoodContainers;
    RevertedSends(manifest, m, live, d);
    ContainersReverted(m.containers, d.containers);
    var patches := Patches(m.containers, d.containers);
    PatchSpec(d, patches, "replicas" !in m.spec && "replicas" in d.spec);
    RebuiltReads(d, RevertedContainers(m.containers, d.containers));
    RebuiltSame(d);
  }

  lemma RebuiltReads(d: Deployment, containers: seq<Json>)
    requires Reads(JMap(d.root), d)
    ensures Reads(JMap(Rebuilt(d, containers, true).root), Rebuilt(d, containers, true))
    ensures Reads(JMap(Rebuilt(d, containers, false).root), Rebuilt(d, containers, false))
    ensures "replicas" !in d.spec ==> Rebuilt(d, containers, true) == Rebuilt(d, containers, false)
  {
    KeysDiffer();
    if "replicas" !in d.spec {
      var x := d.spec["template" := JMap(Rebuilt(d, containers, false).template)];
      assert x - {} == x && x - {"replicas"} == x;
    }
  }

  lemma RebuiltSame(d: Deployment)
    requires Reads(JMap(d.root), d)
    ensures Rebuilt(d, d.containers, false) == d
  {
    assert d.pod["containers" := JList(d.containers)] == d.pod;
    assert d.template["spec" := JMap(d.pod)] == d.template;
    assert d.spec["template" := JMap(d.template)] - {} == d.spec;
    assert d.root["spec" := JMap(d.spec)] == d.root;
  }

  /**
   * Diff then patch. For well-typed Deployments, reverting succeeds; each
   * container of a manifest container's name whose live copy has `resources`
   * ends with exactly the manifest's requests and limits (empty and absent being
   * the same); live replicas stay exactly when the manifest states them; every
   * other container and every other field is as it was.
   */
  lemma RevertMeetsManifest(manifest: Json, m: Deployment, live: Json, d: Deployment)
    requires WellTyped(manifest, m) && WellTyped(live, d)
    ensures Reverted(manifest, live).Ok?
    ensures var r := Rebuilt(d, RevertedContainers(m.containers, d.containers), "replicas" !in m.spec);
            && Reverted(manifest, live).value == JMap(r.root) && WellTyped(JMap(r.root), r)
            && |r.containers| == |d.containers|
            && (forall i | 0 <= i < |d.containers| :: NameOf(r.containers[i]) == NameOf(d.containers[i]))
            && (forall i, j | 0 <= i < |d.containers| && 0 <= j < |m.containers|
                              && NameOf(d.containers[i]) == NameOf(m.containers[j]) ::
                  RevertedTo(r.containers[i], d.containers[i], m.containers[j]))
            && (forall i | 0 <= i < |d.containers| && !Names(m.containers, NameOf(d.containers[i])) ::
                  r.containers[i] == d.containers[i])
            && ("replicas" in r.spec <==> "replicas" in m.spec && "replicas" in d.spec)
            && ("replicas" in r.spec ==> r.spec["replicas"] == d.spec["replicas"])
            && r.root - {"spec"} == d.root - {"spec"}
            && r.spec - {"template", "replicas"} == d.spec - {"template", "replicas"}
            && r.template - {"spec"} == d.template - {"spec"}
            && r.pod - {"containers"} == d.pod - {"containers"}
  {
    hide Rebuilt, Patched, Reverted, RevertedTo, GoodContainer, NameOf;
    RevertedReads(manifest, m, live, d);
    var r := Rebuilt(d, RevertedContainers(m.containers, d.containers), "replicas" !in m.spec);
    RebuiltFrame(d, RevertedContainers(m.containers, d.containers), "replicas" !in m.spec);
    forall i | 0 <= i < |d.containers|
      ensures forall j | 0 <= j < |m.containers| && NameOf(d.containers[i]) == NameOf(m.containers[j]) ::
                RevertedTo(r.containers[i], d.containers[i], m.containers[j])
      ensures !Names(m.containers, NameOf(d.containers[i])) ==> r.containers[i] == d.containers[i]
      ensures GoodContainer(r.containers[i]) && NameOf(r.containers[i]) == NameOf(d.containers[i])
    {
      ContainerAt(m.containers, d.containers, i);
    }
  }

  lemma RebuiltFrame(d: Deployment, containers: seq<Json>, drop: bool)
    ensures var r := Rebuilt(d, containers, drop);
            && r.containers == containers
            && r.root - {"spec"} == d.root - {"spec"}
            && r.spec - {"template", "replicas"} == d.spec - {"template", "replicas"}
            && r.template - {"spec"} == d.template - {"spec"}
            && r.pod - {"containers"} == d.pod - {"containers"}
            && ("replicas" in r.spec <==> !drop && "replicas" in d.spec)
            && ("replicas" in r.spec ==> r.spec["replicas"] == d.spec["replicas"])
  {
    KeysDiffer();
  }

  lemma ContainerAt(objs: seq<Json>, live: seq<Json>, i: nat)
    requires GoodContainers(objs) && GoodContainers(live) && i < |live|
    ensures var after := RevertedContainer(objs, live, i);
            && (forall j | 0 <= j < |objs| && NameOf(live[i]) == NameOf(objs[j]) :: RevertedTo(after, live[i], objs[j]))
            && (!Names(objs, NameOf(live[i])) ==> after == live[i])
            && GoodContainer(after) && NameOf(after) == NameOf(live[i])
  {
    assert live[i] in live;
    var name := NameOf(live[i]).value;
    var j := IndexByName(objs, name);
    assert forall j' | 0 <= j' < |objs| && NameOf(objs[j']) == Some(name) :: j' == j;
    if j < |objs| {
      assert objs[j] in objs;
      assert IndexByName(live, name) == i;
      ContainerReverted(objs[j], live[i]);
    }
  }

  // ----- once is enough -----

  lemma PatchedResourcesSame(m: map<string, Json>, d: map<string, Json>)
    requires GoodResources(JMap(m)) && GoodResources(JMap(d))
    requires OrEmpty(MapAt(m, "requests")) == OrEmpty(MapAt(d, "requests"))
    requires OrEmpty(MapAt(m, "limits")) == OrEmpty(MapAt(d, "limits"))
    ensures Patched("resources", Some(JMap(d)), JMap(ResourcesPatch(m, d))) == JMap(d)
  {
    PatchedMap("resources", Some(JMap(d)), ResourcesPatch(m, d));
    PatchedQuantities(m, d, "requests");
    PatchedQuantities(m, d, "limits");
    hide Patched, MergedField, ResourcesPatch;
    var r := Patched("resources", Some(JMap(d)), JMap(ResourcesPatch(m, d)));
    forall k ensures Get(r.fields, k) == Get(d, k) {
      ResourcesPatchReads(m, d, k);
      if k == "requests" || k == "limits" {
        SameQuantitiesNotNull(m, d, k);
      }
    }
    SameReadings(r.fields, d);
  }

  lemma SameQuantitiesNotNull(m: map<string, Json>, d: map<string, Json>, k: string)
    requires OrEmpty(MapAt(m, k)) == OrEmpty(MapAt(d, k))
    ensures MergedField(m, d, k) == OrEmpty(MapAt(d, k))
    ensures MergedField(m, d, k) != map[] ==> Get(d, k) == Some(JMap(OrEmpty(MapAt(m, k))))
  {
  }

  lemma ContainerRevertedTwice(m: Json, live: Json)
    requires GoodContainer(live) && GoodContainer(m) && NameOf(m) == NameOf(live)
    ensures var once := Fixed(live, ContainerPatch(m.fields, live.fields, NameOf(m).value));
            NameOf(once) == NameOf(m) && Fixed(once, ContainerPatch(m.fields, once.fields, NameOf(m).value)) == once
  {
    ContainerReverted(m, live);
    KeysDiffer();
    var name := NameOf(m).value;
    var once := Fixed(live, ContainerPatch(m.fields, live.fields, name));
    if "resources" in once.fields && ContainerPatch(m.fields, once.fields, name).Some? {
      var mr, r := m.fields["resources"].fields, once.fields["resources"].fields;
      PatchedResourcesSame(mr, r);
      PatchedContainer(once.fields, name, JMap(ResourcesPatch(mr, r)));
      assert once.fields["resources" := JMap(r)] == once.fields;
    }
  }

  /** Reverting what was reverted changes nothing, even where a patch is still sent. */
  lemma RevertIdempotent(manifest: Json, m: Deployment, live: Json, d: Deployment)
    requires WellTyped(manifest, m) && WellTyped(live, d)
    ensures Reverted(manifest, live).Ok?
    ensures Reverted(manifest, Reverted(manifest, live).value) == Reverted(manifest, live)
  {
    hide Patched, Nested, RevertedContainer, Reverted, RevertedContainers, RevertedTo, Names, NameOf;
    RevertMeetsManifest(manifest, m, live, d);
    var once := Rebuilt(d, RevertedContainers(m.containers, d.containers), "replicas" !in m.spec);
    RevertedContainersTwice(m, d, once);
    RevertedReads(manifest, m, JMap(once.root), once);
    RebuiltSame(once);
    RebuiltReads(once, once.containers);
  }

  lemma RevertedContainersTwice(m: Deployment, d: Deployment, once: Deployment)
    requires GoodContainers(m.containers) && GoodContainers(d.containers) && GoodContainers(once.containers)
    requires once.containers == RevertedContainers(m.containers, d.containers) && |once.containers| == |d.containers|
    requires forall i | 0 <= i < |d.containers| :: NameOf(once.containers[i]) == NameOf(d.containers[i])
    ensures RevertedContainers(m.containers, once.containers) == once.containers
  {
    hide Patched, Nested;
    forall i | 0 <= i < |once.containers|
      ensures RevertedContainer(m.containers, once.containers, i) == once.containers[i]
    {
      RevertedContainerTwice(m.containers, d.containers, once.containers, i);
    }
  }

  lemma RevertedContainerTwice(objs: seq<Json>, live: seq<Json>, once: seq<Json>, i: nat)
    requires GoodContainers(objs) && GoodContainers(live)
    requires once == RevertedContainers(objs, live) && GoodContainers(once)
    requires i < |once| && NameOf(once[i]) == NameOf(live[i])
    ensures RevertedContainer(objs, once, i) == once[i]
  {
    assert live[i] in live;
    var name := NameOf(live[i]).value;
    var j := IndexByName(objs, name);
    if j < |objs| {
      assert objs[j] in objs;
      assert IndexByName(live, name) == i && IndexByName(once, name) == i;
      ContainerRevertedTwice(objs[j], live[i]);
    }
  }
}
