/**
 * What deploying one resource does: stamping, the cache, merging with the live
 * object, and the API call.
 */
module DeploySpec {
  import opened Options
  import opened Cluster
  import Decimal

  const MANAGED := "opendatahub.io/managed"
  const PLATFORM_VERSION := "platform.opendatahub.io/version"
  const PLATFORM_TYPE := "platform.opendatahub.io/type"
  const INSTANCE_GENERATION := "platform.opendatahub.io/instance.generation"
  const INSTANCE_NAME := "platform.opendatahub.io/instance.name"
  const INSTANCE_UID := "platform.opendatahub.io/instance.uid"
  const PART_OF := "platform.opendatahub.io/part-of"
  const PLATFORM := "platform"

  const CRD := GroupVersionKind("apiextensions.k8s.io", "v1", "CustomResourceDefinition")

  datatype Mode = ModePatch | ModeSSA | OtherMode(name: string)

  datatype Strategy = MergeDeployments | MergeObservability

  datatype Config = Config(
    mode: Mode,
    fieldOwner: string,
    labels: map<string, string>,
    annotations: map<string, string>,
    mergeStrategies: map<GroupVersionKind, Strategy>,
    excludeFromOwnership: set<GroupVersionKind>,
    managedKey: string,
    legacyOwners: set<GroupVersionKind>)

  /** The owning object, apart from its generation. */
  datatype Owner = Owner(gvk: GroupVersionKind, namespace: string, name: string, uid: string)

  datatype Release = Release(kind: string, version: string)

  /** The per-invocation input that is stamped on every resource. */
  datatype Input = Input(owner: Option<Owner>, generation: int, release: Release)

  datatype DeployError =
    | OwnerInOtherNamespace(key: Key)
    | UnsupportedMode(name: string)
    | Conflict(key: Key)
    | NotFound(key: Key)
    | AlreadyExists(key: Key)
    | Refused(key: Key, text: string)
    | SortFailed(text: string)

  // ----- stamping -----

  function LowerChar(c: char): char {
    if 'A' <= c <= 'Z' then c - 'A' + 'a' else c
  }

  /** `strings.ToLower` on a kind, which Kubernetes keeps to ASCII. */
  function ToLower(s: string): string {
    if s == "" then "" else [LowerChar(s[0])] + ToLower(s[1..])
  }

  function ControllerName(c: Config, i: Input): string {
    if c.fieldOwner != "" then c.fieldOwner
    else if i.owner.None? then ""
    else ToLower(i.owner.value.gvk.kind)
  }

  function WithAnnotation(m: Manifest, k: string, v: string): Manifest {
    m.(annotations := m.annotations[k := v])
  }

  function StampAnnotations(c: Config, i: Input, m: Manifest): (r: Manifest)
    ensures r == m.(annotations := r.annotations)
  {
    var m := m.(annotations := m.annotations + c.annotations);
    var m := if i.owner.None? then m
             else
               WithAnnotation(
                 WithAnnotation(
                   WithAnnotation(m, INSTANCE_GENERATION, Decimal.FormatInt(i.generation)),
                   INSTANCE_NAME, i.owner.value.name),
                 INSTANCE_UID, i.owner.value.uid);
    var m := if i.release.kind == "" then m else WithAnnotation(m, PLATFORM_TYPE, i.release.kind);
    if i.release.version == "" then m else WithAnnotation(m, PLATFORM_VERSION, i.release.version)
  }

  /** `stampMetadata`. */
  function StampResource(c: Config, i: Input, m: Manifest): (r: Manifest)
    ensures r == m.(labels := r.labels, annotations := r.annotations)
  {
    var m := StampAnnotations(c, i, m.(labels := m.labels + c.labels));
    if Lookup(m.labels, PART_OF) == "" && ControllerName(c, i) != "" then
      m.(labels := m.labels[PART_OF := ControllerName(c, i)])
    else m
  }

  function StampCRD(c: Config, m: Manifest): Manifest {
    m.(labels := (m.labels + c.labels)[PART_OF := PLATFORM], annotations := m.annotations + c.annotations)
  }

  function Stamped(c: Config, i: Input, m: Manifest): Manifest {
    if m.key.gvk == CRD then StampCRD(c, m) else StampResource(c, i, m)
  }

  // ----- the cache -----

  /** The fields `resources.Hash` looks at: owner references are not among them. */
  function Fingerprint(m: Manifest): Manifest {
    m.(owners := map[])
  }

  datatype CacheKey = CacheKey(key: Key, resourceVersion: nat, fingerprint: Manifest)

  /** The version of an object the server never stored. */
  const NO_VERSION: nat := 0

  // ----- merging with the live object -----

  const CONTAINERS: Path := ["spec", "template", "spec", "containers"]
  const REPLICAS: Path := ["spec", "replicas"]
  const SPEC_RESOURCES: Path := ["spec", "resources"]
  const AGGREGATION_RULE: Path := ["aggregationRule"]
  const RULES: Path := ["rules"]

  function AnyUnder(body: map<Path, string>, prefix: Path): bool {
    exists p | p in body :: prefix <= p
  }

  function HasContainer(body: map<Path, string>, name: string): bool {
    AnyUnder(body, CONTAINERS + [name])
  }

  /** The paths on which the merge strategy lets the live object decide. */
  predicate LiveDecides(s: Strategy, live: map<Path, string>, desired: map<Path, string>, p: Path) {
    match s
    case MergeDeployments =>
      || p == REPLICAS
      || (|p| >= 6 && CONTAINERS <= p && p[5] == "resources" && HasContainer(live, p[4]) && HasContainer(desired, p[4]))
    case MergeObservability =>
      SPEC_RESOURCES <= p && AnyUnder(live, SPEC_RESOURCES)
  }

  /** The merge strategy in force: none once the live object says `managed=true`. */
  function ActiveStrategy(c: Config, live: Manifest): Option<Strategy> {
    if live.key.gvk in c.mergeStrategies && Lookup(live.annotations, c.managedKey) != "true"
    then Some(c.mergeStrategies[live.key.gvk])
    else None
  }

  function Merged(c: Config, live: Manifest, desired: Manifest): Manifest {
    match ActiveStrategy(c, live)
    case None => desired
    case Some(s) =>
      desired.(body :=
        (map p | p in desired.body && !LiveDecides(s, live.body, desired.body, p) :: desired.body[p])
        + (map p | p in live.body && LiveDecides(s, live.body, desired.body, p) :: live.body[p]))
  }

  /** Server-side apply of an aggregated role leaves its rules to the controller that fills them. */
  predicate Dropped(c: Config, desired: map<Path, string>, p: Path) {
    c.mode == ModeSSA && AnyUnder(desired, AGGREGATION_RULE) && RULES <= p
  }

  function WithoutRules(c: Config, m: Manifest): Manifest {
    m.(body := map p | p in m.body && !Dropped(c, m.body, p) :: m.body[p])
  }

  // ----- ownership -----

  /** CRDs, excluded types and ownerless input keep the manifest's own owner references. */
  predicate PassesOwners(c: Config, owner: Option<Owner>, gvk: GroupVersionKind) {
    gvk == CRD || owner.None? || gvk in c.excludeFromOwnership
  }

  function RefTo(o: Owner): OwnerRef {
    OwnerRef(GroupVersionString(o.gvk), o.gvk.kind, o.name, o.uid)
  }

  /** `SetControllerReference` refuses a namespaced owner for anything outside its namespace. */
  predicate OwnerAllowed(o: Owner, k: Key) {
    o.namespace == "" || o.namespace == k.namespace
  }

  predicate IsLegacy(c: Config, ref: OwnerRef) {
    exists gvk | gvk in c.legacyOwners :: RefersTo(ref, gvk) == Some(true)
  }

  function NonLegacy(c: Config, owners: map<string, OwnerRef>): map<string, OwnerRef> {
    map u | u in owners && !IsLegacy(c, owners[u]) :: owners[u]
  }

  /** `removeLegacyOwnerRefs`: an Update of the live object, only when it removes something. */
  function LegacyRemoved(c: Config, s: Server, k: Key): Server {
    if k !in s.objects || NonLegacy(c, s.objects[k].content.owners) == s.objects[k].content.owners then s
    else
      var live := s.objects[k];
      Put(s, live.content.(owners := NonLegacy(c, live.content.owners)), live.terminating)
  }

  // ----- the path without a cache -----

  /** The server afterwards, and the version the cache would record (`NO_VERSION` when nothing was stored). */
  datatype Deployment = Deployment(server: Server, outcome: Result<nat, DeployError>)

  predicate CreateOnly(c: Config, m: Manifest) {
    m.key.gvk != CRD && Lookup(m.annotations, c.managedKey) == "false"
  }

  function VersionAt(s: Server, k: Key): nat {
    if k in s.objects then s.objects[k].resourceVersion else NO_VERSION
  }

  /** The manifest handed to the server, given the live object if there is one. */
  function Sent(c: Config, owner: Option<Owner>, live: Option<Object>, m: Manifest): Manifest {
    var owned := if PassesOwners(c, owner, m.key.gvk) then m
                 else m.(owners := map[owner.value.uid := RefTo(owner.value)]);
    if live.None? then owned
    else WithoutRules(c, Merged(c, live.value.content, owned))
  }

  /** Deploying a stamped manifest with the cache out of the way. */
  function Uncached(c: Config, owner: Option<Owner>, s: Server, m: Manifest): Deployment {
    if CreateOnly(c, m) then
      if m.key in s.objects then Deployment(s, Ok(NO_VERSION))
      else Deployment(Put(s, m.(annotations := m.annotations - {c.managedKey}), false), Ok(s.lastVersion + 1))
    else
      var s' := if PassesOwners(c, owner, m.key.gvk) then s else LegacyRemoved(c, s, m.key);
      if !PassesOwners(c, owner, m.key.gvk) && !OwnerAllowed(owner.value, m.key) then
        Deployment(s', Err(OwnerInOtherNamespace(m.key)))
      else if c.mode.OtherMode? then
        Deployment(s', Err(UnsupportedMode(c.mode.name)))
      else
        var after := Applied(s', Sent(c, owner, Get(s', m.key), m));
        Deployment(after, Ok(VersionAt(after, m.key)))
  }

  // ----- the same path while others act -----

  /** What anyone else may do to the server. */
  datatype Act = Write(content: Manifest, terminating: bool) | Delete(key: Key) | Remove(key: Key)

  function Acted(s: Server, a: Act): Server {
    match a
    case Write(content, terminating) => Put(s, content, terminating)
    case Delete(k) => Deleted(s, k)
    case Remove(k) => Removed(s, k)
  }

  function Suffered(s: Server, acts: seq<Act>): Server
    decreases |acts|
  {
    if acts == [] then s else Suffered(Acted(s, acts[0]), acts[1..])
  }

  function KeyOf(a: Act): Key {
    match a case Write(content, _) => content.key case Delete(k) => k case Remove(k) => k
  }

  lemma {:induction false} SufferedValid(s: Server, acts: seq<Act>)
    requires ValidServer(s)
    ensures ValidServer(Suffered(s, acts)) && s.lastVersion <= Suffered(s, acts).lastVersion
    decreases |acts|
  {
    if acts != [] {
      SufferedValid(Acted(s, acts[0]), acts[1..]);
    }
  }

  lemma {:induction false} SufferedAppend(s: Server, acts: seq<Act>, more: seq<Act>)
    ensures Suffered(s, acts + more) == Suffered(Suffered(s, acts), more)
    decreases |acts|
  {
    if acts == [] {
      assert acts + more == more;
    } else {
      assert (acts + more)[1..] == acts[1..] + more;
      SufferedAppend(Acted(s, acts[0]), acts[1..], more);
    }
  }

  /**
   * The deployer reads the live object once and works on that copy. Others act
   * between the read and the update that drops legacy owners, and between that
   * and the request that stores the manifest.
   */
  datatype Between = Between(beforeUpdate: seq<Act>, beforeSend: seq<Act>, refusals: Refusals)

  /**
   * Which requests are answered with an error for reasons of the server's own. One
   * that took effect all the same is one that somebody else made before it.
   */
  datatype Refusals = Refusals(read: Option<string>, update: Option<string>, send: Option<string>)

  const SERVED := Refusals(None, None, None)

  const NOBODY := Between([], [], SERVED)

  datatype Disowning = Disowning(server: Server, read: Option<Object>)

  /** The copy shows legacy owners that are to be dropped. */
  predicate Updates(c: Config, owner: Option<Owner>, read: Option<Object>, m: Manifest) {
    && !CreateOnly(c, m) && !PassesOwners(c, owner, m.key.gvk) && read.Some?
    && NonLegacy(c, read.value.content.owners) != read.value.content.owners
  }

  /** The update that drops legacy owners submits the copy, and is refused if the copy is out of date. */
  function Disowned(
      c: Config, owner: Option<Owner>, s: Server, read: Option<Object>, m: Manifest): Result<Disowning, DeployError>
  {
    if !Updates(c, owner, read, m) then Ok(Disowning(s, read))
    else if m.key !in s.objects then Err(NotFound(m.key))
    else if s.objects[m.key].resourceVersion != read.value.resourceVersion then Err(Conflict(m.key))
    else
      var kept := read.value.content.(key := m.key, owners := NonLegacy(c, read.value.content.owners));
      var s' := Put(s, kept, s.objects[m.key].terminating);
      Ok(Disowning(s', Some(s'.objects[m.key])))
  }

  /**
   * The request that stores the manifest, merged with the copy `read`. A forced
   * apply has no version to check; in patch mode an object missing from the
   * copy is created, which fails if it is there by now.
   */
  function Sending(c: Config, owner: Option<Owner>, s: Server, read: Option<Object>, m: Manifest): Deployment {
    if CreateOnly(c, m) then
      if m.key in s.objects then Deployment(s, Ok(NO_VERSION))
      else Deployment(Put(s, m.(annotations := m.annotations - {c.managedKey}), false), Ok(s.lastVersion + 1))
    else if !PassesOwners(c, owner, m.key.gvk) && !OwnerAllowed(owner.value, m.key) then
      Deployment(s, Err(OwnerInOtherNamespace(m.key)))
    else if c.mode.OtherMode? then
      Deployment(s, Err(UnsupportedMode(c.mode.name)))
    else if c.mode == ModePatch && read.None? && m.key in s.objects then
      Deployment(s, Err(AlreadyExists(m.key)))
    else
      var after := Applied(s, Sent(c, owner, read, m));
      Deployment(after, Ok(VersionAt(after, m.key)))
  }

  /** It comes to a request at all. */
  predicate Requests(c: Config, owner: Option<Owner>, m: Manifest) {
    || CreateOnly(c, m)
    || ((PassesOwners(c, owner, m.key.gvk) || OwnerAllowed(owner.value, m.key)) && !c.mode.OtherMode?)
  }

  /** Everything after the skip check, from the copy `read`. */
  function Attempted(
      c: Config, owner: Option<Owner>, s: Server, read: Option<Object>, m: Manifest, b: Between): Deployment
  {
    var before := Suffered(s, b.beforeUpdate);
    if Updates(c, owner, read, m) && b.refusals.update.Some? then
      Deployment(before, Err(Refused(m.key, b.refusals.update.value)))
    else match Disowned(c, owner, before, read, m)
      case Err(e) => Deployment(before, Err(e))
      case Ok(d) =>
        var met := Suffered(d.server, b.beforeSend);
        if Requests(c, owner, m) && b.refusals.send.Some? then
          Deployment(met, Err(Refused(m.key, b.refusals.send.value)))
        else Sending(c, owner, met, d.read, m)
  }

  // ----- the path with the cache -----

  datatype World = World(server: Server, cache: Option<set<CacheKey>>)

  datatype Verdict = OptedOut | Terminating | CacheHit | Deploys

  /** Which way `deployOne` goes for an already stamped manifest. */
  function Decide(c: Config, w: World, m: Manifest): Verdict {
    var live := Get(w.server, m.key);
    if live.Some? && Lookup(live.value.content.annotations, c.managedKey) == "false" then OptedOut
    else if live.Some? && live.value.terminating then Terminating
    else if live.Some? && w.cache.Some?
            && CacheKey(m.key, live.value.resourceVersion, Fingerprint(m)) in w.cache.value then CacheHit
    else Deploys
  }

  function Forgotten(w: World, k: CacheKey): World {
    w.(cache := if w.cache.Some? then Some(w.cache.value - {k}) else None)
  }

  function Remembered(w: World, k: CacheKey): World {
    w.(cache := if w.cache.Some? then Some(w.cache.value + {k}) else None)
  }

  /** The world after deploying one stamped manifest, and whether anything was sent. */
  datatype Step = Step(world: World, outcome: Result<bool, DeployError>)

  function DeployedOne(c: Config, owner: Option<Owner>, w: World, m: Manifest): Step {
    match Decide(c, w, m)
    case OptedOut => Step(w, Ok(false))
    case Terminating =>
      Step(Forgotten(w, CacheKey(m.key, VersionAt(w.server, m.key), Fingerprint(m))), Ok(false))
    case CacheHit => Step(w, Ok(false))
    case Deploys =>
      var d := Uncached(c, owner, w.server, m);
      match d.outcome
      case Err(e) => Step(w.(server := d.server), Err(e))
      case Ok(version) =>
        Step(Remembered(w.(server := d.server), CacheKey(m.key, version, Fingerprint(m))), Ok(true))
  }

  /** The same with others acting during the deployment. */
  function DeployedAmid(c: Config, owner: Option<Owner>, w: World, m: Manifest, b: Between): Step {
    if b.refusals.read.Some? then Step(w, Err(Refused(m.key, b.refusals.read.value)))
    else match Decide(c, w, m)
    case OptedOut => Step(w, Ok(false))
    case Terminating =>
      Step(Forgotten(w, CacheKey(m.key, VersionAt(w.server, m.key), Fingerprint(m))), Ok(false))
    case CacheHit => Step(w, Ok(false))
    case Deploys =>
      var d := Attempted(c, owner, w.server, Get(w.server, m.key), m, b);
      match d.outcome
      case Err(e) => Step(w.(server := d.server), Err(e))
      case Ok(version) =>
        Step(Remembered(w.(server := d.server), CacheKey(m.key, version, Fingerprint(m))), Ok(true))
  }

  /** When nobody acts in between, the copy is the live object and the two paths are one. */
  lemma UndisturbedIsUncached(c: Config, owner: Option<Owner>, s: Server, m: Manifest)
    requires ValidServer(s)
    ensures Attempted(c, owner, s, Get(s, m.key), m, NOBODY) == Uncached(c, owner, s, m)
  {
    hide Sent, Applied, NonLegacy;
    if m.key in s.objects {
      assert s.objects[m.key].content.key == m.key;
    }
  }

  lemma UndisturbedIsDeployedOne(c: Config, owner: Option<Owner>, w: World, m: Manifest)
    requires ValidServer(w.server)
    ensures DeployedAmid(c, owner, w, m, NOBODY) == DeployedOne(c, owner, w, m)
  {
    UndisturbedIsUncached(c, owner, w.server, m);
    hide Attempted, Uncached;
  }
}
