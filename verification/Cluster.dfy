/**
 * The API server as deployment sees it: a map from identity to object, each
 * write taking the next resource version.
 */
module Cluster {
  import opened Options

  datatype GroupVersionKind = GroupVersionKind(group: string, version: string, kind: string)

  datatype Key = Key(gvk: GroupVersionKind, namespace: string, name: string)

  datatype OwnerRef = OwnerRef(apiVersion: string, kind: string, name: string, uid: string)

  /** A field path; list elements merged by name are addressed by that name. */
  type Path = seq<string>

  /** What a manifest says and an object holds. Owner references are keyed by uid. */
  datatype Manifest = Manifest(
    key: Key,
    labels: map<string, string>,
    annotations: map<string, string>,
    owners: map<string, OwnerRef>,
    body: map<Path, string>)

  datatype Object = Object(content: Manifest, resourceVersion: nat, terminating: bool)

  datatype Server = Server(objects: map<Key, Object>, lastVersion: nat)

  /** Go's map read: absent reads as the empty string. */
  function Lookup(m: map<string, string>, k: string): string {
    if k in m then m[k] else ""
  }

  ghost predicate Submap<K, V>(m: map<K, V>, n: map<K, V>) {
    forall k | k in m :: k in n && n[k] == m[k]
  }

  lemma MergeOfSubmap<K, V>(m: map<K, V>, n: map<K, V>)
    ensures n + m == n <==> Submap(m, n)
  {
    if n + m == n {
      forall k | k in m ensures k in n && n[k] == m[k] {
        assert k in n + m && (n + m)[k] == m[k];
      }
    }
  }

  ghost predicate ValidServer(s: Server) {
    forall k | k in s.objects :: s.objects[k].content.key == k && 1 <= s.objects[k].resourceVersion <= s.lastVersion
  }

  function Get(s: Server, k: Key): Option<Object> {
    if k in s.objects then Some(s.objects[k]) else None
  }

  /** Any write that changes an object: it takes the next resource version. */
  function Put(s: Server, content: Manifest, terminating: bool): Server {
    Server(s.objects[content.key := Object(content, s.lastVersion + 1, terminating)], s.lastVersion + 1)
  }

  /** Server-side apply with forced ownership: the manifest's fields win, everything else stays. */
  function Overlay(live: Manifest, m: Manifest): Manifest {
    live.(labels := live.labels + m.labels,
          annotations := live.annotations + m.annotations,
          owners := live.owners + m.owners,
          body := live.body + m.body)
  }

  /** Apply creates a missing object, and does not write when nothing would change. */
  function Applied(s: Server, m: Manifest): Server {
    if m.key !in s.objects then Put(s, m, false)
    else
      var live := s.objects[m.key];
      if Overlay(live.content, m) == live.content then s else Put(s, Overlay(live.content, m), live.terminating)
  }

  /** Foreground deletion: the object stays, terminating, until its dependents are gone. */
  function Deleted(s: Server, k: Key): Server {
    if k in s.objects && !s.objects[k].terminating
    then Server(s.objects[k := Object(s.objects[k].content, s.lastVersion + 1, true)], s.lastVersion + 1)
    else s
  }

  function Removed(s: Server, k: Key): Server {
    s.(objects := s.objects - {k})
  }

  /** Applying twice is applying once. */
  lemma ApplyIdempotent(s: Server, m: Manifest)
    requires ValidServer(s)
    ensures Applied(Applied(s, m), m) == Applied(s, m)
  {
    if m.key in s.objects {
      var live := s.objects[m.key].content;
      var once := Overlay(live, m);
      assert once.labels + m.labels == once.labels && once.annotations + m.annotations == once.annotations;
      assert once.owners + m.owners == once.owners && once.body + m.body == once.body;
    } else {
      assert m.labels + m.labels == m.labels && m.annotations + m.annotations == m.annotations;
      assert m.owners + m.owners == m.owners && m.body + m.body == m.body;
    }
  }

  function Slashes(s: string): nat {
    if s == "" then 0 else (if s[0] == '/' then 1 else 0) + Slashes(s[1..])
  }

  /** The text before the first slash and the text after it. */
  function CutAtSlash(s: string): (string, string) {
    if s == "" then ("", "")
    else if s[0] == '/' then ("", s[1..])
    else
      var (before, after) := CutAtSlash(s[1..]);
      ([s[0]] + before, after)
  }

  /** `schema.ParseGroupVersion`. */
  function ParseGroupVersion(s: string): Option<(string, string)> {
    if s == "" || s == "/" then Some(("", ""))
    else if Slashes(s) == 0 then Some(("", s))
    else if Slashes(s) == 1 then Some(CutAtSlash(s))
    else None
  }

  /** `GroupVersion.String`. */
  function GroupVersionString(gvk: GroupVersionKind): string {
    if gvk.group == "" then gvk.version else gvk.group + "/" + gvk.version
  }

  lemma {:induction false} CutOfJoined(group: string, version: string)
    requires Slashes(group) == 0
    ensures CutAtSlash(group + "/" + version) == (group, version)
    ensures Slashes(group + "/" + version) == 1 + Slashes(version)
  {
    var s := group + "/" + version;
    if group == "" {
      assert s[1..] == version;
    } else {
      assert s[1..] == group[1..] + "/" + version;
      CutOfJoined(group[1..], version);
      assert [group[0]] + group[1..] == group;
    }
  }

  /** A printed group and version is parsed back. */
  lemma ParsePrintedGroupVersion(gvk: GroupVersionKind)
    requires Slashes(gvk.group) == 0 && Slashes(gvk.version) == 0 && gvk.version != ""
    ensures ParseGroupVersion(GroupVersionString(gvk)) == Some((gvk.group, gvk.version))
  {
    CutOfJoined(gvk.group, gvk.version);
    assert gvk.group != "" ==> (gvk.group + "/" + gvk.version)[0] == gvk.group[0];
  }

  /** Whether an owner reference names the given type; None when its apiVersion is malformed. */
  function RefersTo(ref: OwnerRef, gvk: GroupVersionKind): Option<bool> {
    match ParseGroupVersion(ref.apiVersion)
    case None => None
    case Some((group, version)) => Some(group == gvk.group && version == gvk.version && ref.kind == gvk.kind)
  }
}
