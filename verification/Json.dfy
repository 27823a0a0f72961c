/** Unstructured objects, reading nested fields, and strategic merge patches on them. */
module Json {
  import opened Options

  datatype Json =
    | JNull
    | JBool(b: bool)
    | JInt(n: int)
    | JString(s: string)
    | JMap(fields: map<string, Json>)
    | JList(items: seq<Json>)

  function Get(m: map<string, Json>, k: string): Option<Json> {
    if k in m then Some(m[k]) else None
  }

  /** `NestedFieldNoCopy`: a null on the way reads as missing, anything else that is no map is an error. */
  datatype Reading = Found(value: Json) | Missing | Mistyped

  function Nested(v: Json, path: seq<string>): Reading
    decreases |path|
  {
    if path == [] then Found(v)
    else match v
      case JNull => Missing
      case JMap(fields) => if path[0] in fields then Nested(fields[path[0]], path[1..]) else Missing
      case _ => Mistyped
  }

  /** The values met on the way from `v` along `path`, one map at a time. */
  ghost predicate Walk(v: Json, path: seq<string>, vs: seq<Json>) {
    && 0 < |vs| <= |path| + 1 && vs[0] == v
    && forall i | 0 < i < |vs| :: FieldOf(vs[i - 1], path[i - 1]) == Some(vs[i])
  }

  function FieldOf(v: Json, key: string): Option<Json> {
    if v.JMap? then Get(v.fields, key) else None
  }

  /**
   * Reading along a path: found where the walk gets to its end, missing where it
   * ends early at a null or at a map without the next key, and an error where it
   * ends early at anything else.
   */
  lemma {:induction false} NestedWalks(v: Json, path: seq<string>) returns (vs: seq<Json>)
    ensures Walk(v, path, vs)
    ensures var n, last := |vs| - 1, vs[|vs| - 1];
            match Nested(v, path)
            case Found(value) => n == |path| && last == value
            case Missing => n < |path| && (last.JNull? || (last.JMap? && path[n] !in last.fields))
            case Mistyped => n < |path| && !last.JNull? && !last.JMap?
    decreases |path|
  {
    vs := [v];
    if path != [] && v.JMap? && path[0] in v.fields {
      var rest := NestedWalks(v.fields[path[0]], path[1..]);
      vs := [v] + rest;
      forall i | 0 < i < |vs| ensures FieldOf(vs[i - 1], path[i - 1]) == Some(vs[i]) {
        if i > 1 {
          assert FieldOf(rest[i - 2], path[1..][i - 2]) == Some(rest[i - 1]);
        }
      }
    }
  }

  function NameOf(v: Json): Option<string> {
    if v.JMap? && "name" in v.fields && v.fields["name"].JString? then Some(v.fields["name"].s) else None
  }

  /** The position of the first element with this name, or the length. */
  function IndexByName(items: seq<Json>, name: string): (i: nat)
    ensures i <= |items|
    ensures forall j | 0 <= j < i :: NameOf(items[j]) != Some(name)
    ensures i < |items| ==> NameOf(items[i]) == Some(name)
  {
    if items == [] || NameOf(items[0]) == Some(name) then 0 else 1 + IndexByName(items[1..], name)
  }

  /**
   * A strategic merge patch: maps merge field by field, null deletes (section 2
   * of RFC 7396), and the elements of a `containers` list merge by `name`.
   */
  function Patched(key: string, target: Option<Json>, patch: Json): Json
    decreases patch, 1, 0
  {
    match patch
    case JMap(fields) =>
      var t := if target.Some? && target.value.JMap? then target.value.fields else map[];
      JMap(map k | k in t.Keys + fields.Keys && !(k in fields && fields[k].JNull?) ::
             if k in fields then Patched(k, Get(t, k), fields[k]) else t[k])
    case JList(items) =>
      if key == "containers" && target.Some? && target.value.JList?
      then JList(PatchedItems(target.value.items, items, patch))
      else patch
    case _ => patch
  }

  function PatchedItems(targets: seq<Json>, patches: seq<Json>, ghost bound: Json): seq<Json>
    requires forall p | p in patches :: p < bound
    decreases bound, 0, |patches|
  {
    if patches == [] then targets
    else
      assert patches[0] in patches && forall p | p in patches[1..] :: p in patches;
      var i := if NameOf(patches[0]).Some? then IndexByName(targets, NameOf(patches[0]).value) else |targets|;
      var merged := if i < |targets| then targets[i := Patched("", Some(targets[i]), patches[0])]
                    else targets + [Patched("", None, patches[0])];
      PatchedItems(merged, patches[1..], bound)
  }

  /** A map patch, read field by field. */
  lemma PatchedMap(key: string, target: Option<Json>, p: map<string, Json>)
    ensures var t := if target.Some? && target.value.JMap? then target.value.fields else map[];
            var r := Patched(key, target, JMap(p));
            && r.JMap?
            && forall k :: Get(r.fields, k) ==
                 if k !in p then Get(t, k)
                 else if p[k].JNull? then None
                 else Some(Patched(k, Get(t, k), p[k]))
  {
  }

  /** Maps with the same readings are the same. */
  lemma SameReadings(m: map<string, Json>, n: map<string, Json>)
    requires forall k :: Get(m, k) == Get(n, k)
    ensures m == n
  {
    forall k ensures k in m <==> k in n {
      assert Get(m, k) == Get(n, k);
    }
    forall k | k in m ensures m[k] == n[k] {
      assert Get(m, k) == Get(n, k);
    }
  }
}
