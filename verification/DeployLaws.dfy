/**
 * Deploying one resource, said of the manifest, the configuration and the live
 * object: what every key is stamped with, which way the deployer goes, what each
 * request answers, and what the server then holds.
 */
module DeployLaws {
  import opened Options
  import opened Cluster
  import opened DeploySpec
  import Decimal

  // ----- the server -----

  function At(m: map<string, string>, k: string): Option<string> {
    if k in m then Some(m[k]) else None
  }

  /** An apiVersion is a version, or a group and a version around its only slash; "" and "/" name neither. */
  ghost predicate IsGroupVersion(s: string, group: string, version: string) {
    || ((s == "" || s == "/") && group == "" && version == "")
    || (s != "" && '/' !in s && group == "" && version == s)
    || (s != "/" && '/' !in group && '/' !in version && s == group + "/" + version)
  }

  lemma {:induction false} NoSlashes(s: string)
    ensures Slashes(s) == 0 <==> '/' !in s
  {
    if s != "" {
      NoSlashes(s[1..]);
    }
  }

  lemma {:induction false} CutSays(s: string)
    requires Slashes(s) == 1
    ensures var (group, version) := CutAtSlash(s);
            '/' !in group && '/' !in version && s == group + "/" + version
  {
    if s[0] == '/' {
      NoSlashes(s[1..]);
      assert s == "" + "/" + s[1..];
    } else {
      CutSays(s[1..]);
      assert s == [s[0]] + s[1..];
    }
  }

  lemma ParseGroupVersionSays(s: string)
    ensures forall group, version ::
              ParseGroupVersion(s) == Some((group, version)) <==> IsGroupVersion(s, group, version)
  {
    NoSlashes(s);
    if Slashes(s) == 1 {
      CutSays(s);
    }
    forall group, version | '/' !in group && '/' !in version && s == group + "/" + version
      ensures Slashes(s) == 1 && CutAtSlash(s) == (group, version)
    {
      NoSlashes(group);
      NoSlashes(version);
      CutOfJoined(group, version);
    }
  }

  /** An owner reference names a type when apiVersion and kind are its own. */
  lemma RefersToSays(ref: OwnerRef, gvk: GroupVersionKind)
    ensures RefersTo(ref, gvk).None? <==> forall group, version :: !IsGroupVersion(ref.apiVersion, group, version)
    ensures RefersTo(ref, gvk) == Some(true) <==>
            IsGroupVersion(ref.apiVersion, gvk.group, gvk.version) && ref.kind == gvk.kind
  {
    ParseGroupVersionSays(ref.apiVersion);
    hide IsGroupVersion, ParseGroupVersion;
    if RefersTo(ref, gvk).Some? {
      var (group, version) := ParseGroupVersion(ref.apiVersion).value;
      assert ParseGroupVersion(ref.apiVersion) == Some((group, version));
    }
  }

  /** Another object is none of a write's business. */
  ghost predicate OthersKept(s: Server, t: Server, k: Key) {
    forall x: Key | x != k :: (x in t.objects <==> x in s.objects) && (x in s.objects ==> t.objects[x] == s.objects[x])
  }

  /** A forced apply: what the manifest states is stored, all else stays, a version is taken if anything changed. */
  lemma AppliedSays(s: Server, m: Manifest)
    requires ValidServer(s)
    ensures var t := Applied(s, m);
            && OthersKept(s, t, m.key) && m.key in t.objects
            && var after := t.objects[m.key];
               && (m.key !in s.objects ==>
                     after == Object(m, s.lastVersion + 1, false) && t.lastVersion == s.lastVersion + 1)
               && (m.key in s.objects ==>
                     var before := s.objects[m.key];
                     && after.terminating == before.terminating && after.content.key == m.key
                     && (forall k :: At(after.content.labels, k) ==
                                     if k in m.labels then Some(m.labels[k]) else At(before.content.labels, k))
                     && (forall k :: At(after.content.annotations, k) ==
                           if k in m.annotations then Some(m.annotations[k]) else At(before.content.annotations, k))
                     && after.content.owners == before.content.owners + m.owners
                     && after.content.body == before.content.body + m.body
                     && (if after.content == before.content then t == s
                         else after.resourceVersion == t.lastVersion == s.lastVersion + 1))
  {
  }

  /** A deletion leaves the object there, terminating, under a new version; a removal takes it out. */
  lemma DeletedSays(s: Server, k: Key)
    ensures var t := Deleted(s, k);
            && OthersKept(s, t, k) && (k in t.objects <==> k in s.objects)
            && (k in s.objects && !s.objects[k].terminating ==>
                  && t.objects[k] == Object(s.objects[k].content, t.lastVersion, true)
                  && t.lastVersion == s.lastVersion + 1)
            && (k !in s.objects || s.objects[k].terminating ==> t == s)
    ensures OthersKept(s, Removed(s, k), k) && k !in Removed(s, k).objects
            && Removed(s, k).lastVersion == s.lastVersion
  {
  }

  // ----- stamping -----

  lemma {:induction false} ToLowerSays(s: string)
    ensures |ToLower(s)| == |s|
    ensures forall i | 0 <= i < |s| ::
              ToLower(s)[i] == if 'A' <= s[i] <= 'Z' then (s[i] as int + 32) as char else s[i]
  {
    if s != "" {
      ToLowerSays(s[1..]);
    }
  }

  /** What the configuration puts over the manifest's own labels or annotations. */
  function Configured(own: map<string, string>, configured: map<string, string>, k: string): Option<string> {
    if k in configured then Some(configured[k]) else At(own, k)
  }

  /** What the annotation `k` of a resource that is no CRD ends as. */
  function StampOf(c: Config, i: Input, m: Manifest, k: string): Option<string> {
    if k == "platform.opendatahub.io/version" && i.release.version != "" then Some(i.release.version)
    else if k == "platform.opendatahub.io/type" && i.release.kind != "" then Some(i.release.kind)
    else if k == "platform.opendatahub.io/instance.generation" && i.owner.Some? then
      Some(Decimal.FormatInt(i.generation))
    else if k == "platform.opendatahub.io/instance.name" && i.owner.Some? then Some(i.owner.value.name)
    else if k == "platform.opendatahub.io/instance.uid" && i.owner.Some? then Some(i.owner.value.uid)
    else Configured(m.annotations, c.annotations, k)
  }

  /** The part-of label where nobody gives one: the field owner, or else the owner's kind. */
  function PartOf(c: Config, i: Input): string {
    if c.fieldOwner != "" then c.fieldOwner
    else if i.owner.Some? then ToLower(i.owner.value.gvk.kind)
    else ""
  }

  lemma StampKeysAreDistinct()
    ensures INSTANCE_GENERATION !in {INSTANCE_NAME, INSTANCE_UID, PLATFORM_TYPE, PLATFORM_VERSION}
    ensures INSTANCE_NAME !in {INSTANCE_UID, PLATFORM_TYPE, PLATFORM_VERSION}
    ensures INSTANCE_UID !in {PLATFORM_TYPE, PLATFORM_VERSION} && PLATFORM_TYPE != PLATFORM_VERSION
  {
    assert |INSTANCE_GENERATION| == 43 && |INSTANCE_NAME| == 37 && |INSTANCE_UID| == 36;
    assert |PLATFORM_TYPE| == 28 && |PLATFORM_VERSION| == 31;
  }

  function OwnerStamps(
      c: Config, i: Input, m: Manifest, generation: string, name: string, uid: string): map<string, string>
  {
    var a := m.annotations + c.annotations;
    if i.owner.None? then a
    else a[generation := Decimal.FormatInt(i.generation)][name := i.owner.value.name][uid := i.owner.value.uid]
  }

  function ReleaseStamps(i: Input, a: map<string, string>, type': string, version: string): map<string, string> {
    var a := if i.release.kind == "" then a else a[type' := i.release.kind];
    if i.release.version == "" then a else a[version := i.release.version]
  }

  lemma OwnerStampsSay(c: Config, i: Input, m: Manifest, generation: string, name: string, uid: string, k: string)
    requires generation != name && generation != uid && name != uid
    ensures At(OwnerStamps(c, i, m, generation, name, uid), k) ==
            if k == generation && i.owner.Some? then Some(Decimal.FormatInt(i.generation))
            else if k == name && i.owner.Some? then Some(i.owner.value.name)
            else if k == uid && i.owner.Some? then Some(i.owner.value.uid)
            else Configured(m.annotations, c.annotations, k)
  {
  }

  lemma ReleaseStampsSay(i: Input, a: map<string, string>, type': string, version: string, k: string)
    requires type' != version
    ensures At(ReleaseStamps(i, a, type', version), k) ==
            if k == version && i.release.version != "" then Some(i.release.version)
            else if k == type' && i.release.kind != "" then Some(i.release.kind)
            else At(a, k)
  {
  }

  lemma StampsSay(c: Config, i: Input, m: Manifest, k: string)
    ensures At(StampAnnotations(c, i, m).annotations, k) == StampOf(c, i, m, k)
  {
    StampKeysAreDistinct();
    var a := OwnerStamps(c, i, m, INSTANCE_GENERATION, INSTANCE_NAME, INSTANCE_UID);
    StampsAreThese(c, i, m);
    OwnerStampsSay(c, i, m, INSTANCE_GENERATION, INSTANCE_NAME, INSTANCE_UID, k);
    ReleaseStampsSay(i, a, PLATFORM_TYPE, PLATFORM_VERSION, k);
    hide OwnerStamps, ReleaseStamps, Configured;
  }

  lemma StampsAreThese(c: Config, i: Input, m: Manifest)
    ensures StampAnnotations(c, i, m).annotations ==
            ReleaseStamps(i, OwnerStamps(c, i, m, INSTANCE_GENERATION, INSTANCE_NAME, INSTANCE_UID),
                PLATFORM_TYPE, PLATFORM_VERSION)
  {
  }

  /**
   * Stamping, key by key. A CRD gets the configured labels and annotations and is
   * part of the platform. Anything else also gets the stamps of its owner and
   * release, and a part-of label unless it has one that is not empty. Nothing but
   * labels and annotations changes.
   */
  lemma StampedSays(c: Config, i: Input, m: Manifest, k: string)
    ensures var r, crd := Stamped(c, i, m),
                          GroupVersionKind("apiextensions.k8s.io", "v1", "CustomResourceDefinition");
            var own := Configured(m.labels, c.labels, k);
            && r.key == m.key && r.owners == m.owners && r.body == m.body
            && (m.key.gvk == crd ==>
                  && At(r.annotations, k) == Configured(m.annotations, c.annotations, k)
                  && At(r.labels, k) == if k == "platform.opendatahub.io/part-of" then Some("platform") else own)
            && (m.key.gvk != crd ==>
                  && At(r.annotations, k) == StampOf(c, i, m, k)
                  && At(r.labels, k) ==
                     if k == "platform.opendatahub.io/part-of" && own in {None, Some("")} && PartOf(c, i) != ""
                     then Some(PartOf(c, i)) else own)
  {
    StampsSay(c, i, m, k);
    hide StampOf, StampAnnotations;
    if m.key.gvk != CRD {
      var labels := m.labels + c.labels;
      assert At(labels, k) == Configured(m.labels, c.labels, k);
      assert StampAnnotations(c, i, m.(labels := labels)).labels == labels;
      StampsForgetLabels(c, i, m, labels);
    }
  }

  lemma StampsForgetLabels(c: Config, i: Input, m: Manifest, labels: map<string, string>)
    ensures StampAnnotations(c, i, m.(labels := labels)).annotations == StampAnnotations(c, i, m).annotations
  {
  }

  // ----- which way the deployer goes -----

  /** The annotation that says whether the platform manages an object. */
  predicate SaysManaged(c: Config, m: Manifest, value: string) {
    c.managedKey in m.annotations && m.annotations[c.managedKey] == value
  }

  /** The cache holds this manifest, owners aside, for the live object as it is. */
  ghost predicate IsCached(w: World, m: Manifest) {
    && m.key in w.server.objects && w.cache.Some?
    && exists e | e in w.cache.value ::
         && e.key == m.key && e.resourceVersion == w.server.objects[m.key].resourceVersion
         && e.fingerprint == m.(owners := map[])
  }

  /** A live object that opts out is left alone, so is one that is going, and a cached one; anything else is sent. */
  lemma DecideSays(c: Config, w: World, m: Manifest)
    ensures var there := m.key in w.server.objects;
            var optedOut := there && SaysManaged(c, w.server.objects[m.key].content, "false");
            var going := there && w.server.objects[m.key].terminating;
            && (Decide(c, w, m) == OptedOut <==> optedOut)
            && (Decide(c, w, m) == Terminating <==> going && !optedOut)
            && (Decide(c, w, m) == CacheHit <==> IsCached(w, m) && !going && !optedOut)
            && (Decide(c, w, m) == Deploys <==> !IsCached(w, m) && !going && !optedOut)
  {
  }

  /** Leaving alone sends nothing and reports that; for an object that is going the entry, if any, is forgotten. */
  lemma LeavingAloneSays(c: Config, owner: Option<Owner>, w: World, m: Manifest, b: Between)
    requires b.refusals.read.None? && m.key in w.server.objects
    requires || SaysManaged(c, w.server.objects[m.key].content, "false")
             || w.server.objects[m.key].terminating || IsCached(w, m)
    ensures var step := DeployedAmid(c, owner, w, m, b);
            && step.outcome == Ok(false) && step.world.server == w.server
            && (step.world.cache.Some? <==> w.cache.Some?)
            && (w.cache.Some? ==>
                  forall e :: e in step.world.cache.value <==>
                    && e in w.cache.value
                    && !(&& w.server.objects[m.key].terminating
                         && !SaysManaged(c, w.server.objects[m.key].content, "false")
                         && e == CacheKey(m.key, w.server.objects[m.key].resourceVersion, m.(owners := map[]))))
  {
    DecideSays(c, w, m);
  }

  /** A refused read ends the deployment with everything as it was; what is sent was neither going nor opted out. */
  lemma RefusedReadSays(c: Config, owner: Option<Owner>, w: World, m: Manifest, b: Between)
    ensures b.refusals.read.Some? ==>
              DeployedAmid(c, owner, w, m, b) == Step(w, Err(Refused(m.key, b.refusals.read.value)))
    ensures DeployedAmid(c, owner, w, m, b).outcome == Ok(true) ==>
              b.refusals.read.None? && Decide(c, w, m) == Deploys
  {
    hide Attempted;
  }

  // ----- the requests -----

  /** A resource the deployer owns: not a CRD, not of an excluded type, and with an owner given. */
  predicate IsOwned(c: Config, owner: Option<Owner>, m: Manifest) {
    && m.key.gvk != GroupVersionKind("apiextensions.k8s.io", "v1", "CustomResourceDefinition")
    && owner.Some? && m.key.gvk !in c.excludeFromOwnership
  }

  /** A manifest that opts out: it is created if missing, and never changed afterwards. */
  predicate OptsOut(c: Config, m: Manifest) {
    && m.key.gvk != GroupVersionKind("apiextensions.k8s.io", "v1", "CustomResourceDefinition")
    && SaysManaged(c, m, "false")
  }

  ghost predicate NamesLegacy(c: Config, ref: OwnerRef) {
    exists gvk | gvk in c.legacyOwners :: IsGroupVersion(ref.apiVersion, gvk.group, gvk.version) && ref.kind == gvk.kind
  }

  lemma LegacySays(c: Config, ref: OwnerRef)
    ensures IsLegacy(c, ref) <==> NamesLegacy(c, ref)
  {
    forall gvk { RefersToSays(ref, gvk); }
    hide RefersTo, IsGroupVersion;
  }

  /** There are legacy owners to drop from the copy the deployer read. */
  ghost predicate ShowsLegacy(c: Config, owner: Option<Owner>, read: Option<Object>, m: Manifest) {
    && !OptsOut(c, m) && IsOwned(c, owner, m) && read.Some?
    && exists u | u in read.value.content.owners :: NamesLegacy(c, read.value.content.owners[u])
  }

  lemma UpdatesSays(c: Config, owner: Option<Owner>, read: Option<Object>, m: Manifest)
    ensures Updates(c, owner, read, m) <==> ShowsLegacy(c, owner, read, m)
  {
    if read.Some? {
      var owners := read.value.content.owners;
      forall u | u in owners ensures IsLegacy(c, owners[u]) <==> NamesLegacy(c, owners[u]) {
        LegacySays(c, owners[u]);
      }
      hide IsLegacy, NamesLegacy;
      if NonLegacy(c, owners) != owners {
        assert exists u | u in owners :: IsLegacy(c, owners[u]);
      }
      assert forall u | u in owners && IsLegacy(c, owners[u]) :: u !in NonLegacy(c, owners);
    }
  }

  /**
   * The update that drops legacy owners: none without such owners, refused when
   * the object is gone or has moved on since it was read, and otherwise the copy
   * is stored without them.
   */
  lemma DisownedSays(c: Config, owner: Option<Owner>, s: Server, read: Option<Object>, m: Manifest)
    requires ValidServer(s)
    ensures var d := Disowned(c, owner, s, read, m);
            if !ShowsLegacy(c, owner, read, m) then d == Ok(Disowning(s, read))
            else if m.key !in s.objects then d == Err(NotFound(m.key))
            else if s.objects[m.key].resourceVersion != read.value.resourceVersion then d == Err(Conflict(m.key))
            else
              && d.Ok? && OthersKept(s, d.value.server, m.key) && m.key in d.value.server.objects
              && var after, copy := d.value.server.objects[m.key], read.value.content;
                 && d.value.read == Some(after)
                 && after.resourceVersion == d.value.server.lastVersion == s.lastVersion + 1
                 && after.terminating == s.objects[m.key].terminating
                 && after.content == copy.(key := m.key, owners := after.content.owners)
                 && (forall u :: u in after.content.owners <==> u in copy.owners && !NamesLegacy(c, copy.owners[u]))
                 && (forall u | u in after.content.owners :: after.content.owners[u] == copy.owners[u])
  {
    UpdatesSays(c, owner, read, m);
    if read.Some? {
      forall u | u in read.value.content.owners {
        LegacySays(c, read.value.content.owners[u]);
      }
    }
    hide ShowsLegacy, Updates, IsLegacy, NamesLegacy;
  }

  /** The request that stores the manifest fails exactly in these cases, and then changes nothing. */
  lemma SendingFailsExactlyWhen(c: Config, owner: Option<Owner>, s: Server, read: Option<Object>, m: Manifest)
    ensures var d := Sending(c, owner, s, read, m);
            && (d.outcome.Err? ==> d.server == s)
            && (OptsOut(c, m) ==> d.outcome.Ok?)
            && (!OptsOut(c, m) ==>
                  var elsewhere := IsOwned(c, owner, m) && owner.value.namespace !in {"", m.key.namespace};
                  && (d.outcome == Err(OwnerInOtherNamespace(m.key)) <==> elsewhere)
                  && (d.outcome.Err? && d.outcome.error.UnsupportedMode? <==> !elsewhere && c.mode.OtherMode?)
                  && (c.mode.OtherMode? && !elsewhere ==> d.outcome == Err(UnsupportedMode(c.mode.name)))
                  && (d.outcome == Err(AlreadyExists(m.key)) <==>
                        !elsewhere && c.mode == ModePatch && read.None? && m.key in s.objects)
                  && (d.outcome.Ok? <==>
                        !elsewhere && !c.mode.OtherMode?
                        && !(c.mode == ModePatch && read.None? && m.key in s.objects)))
  {
    hide Sent, Applied;
  }

  /** The owner lives in another namespace than the resource. */
  predicate IsElsewhere(c: Config, owner: Option<Owner>, m: Manifest) {
    IsOwned(c, owner, m) && owner.value.namespace !in {"", m.key.namespace}
  }

  /**
   * The requests of a deployment in their order, others acting before each: the
   * update if legacy owners show, then the one that stores the manifest unless
   * owner or mode forbid it. The first refusal or failure ends it.
   */
  lemma AttemptSays(c: Config, owner: Option<Owner>, s: Server, read: Option<Object>, m: Manifest, b: Between)
    ensures var d, before := Attempted(c, owner, s, read, m, b), Suffered(s, b.beforeUpdate);
            if ShowsLegacy(c, owner, read, m) && b.refusals.update.Some? then
              d == Deployment(before, Err(Refused(m.key, b.refusals.update.value)))
            else match Disowned(c, owner, before, read, m)
              case Err(e) => d == Deployment(before, Err(e))
              case Ok(owned) =>
                var met := Suffered(owned.server, b.beforeSend);
                var asks := OptsOut(c, m) || (!IsElsewhere(c, owner, m) && !c.mode.OtherMode?);
                if asks && b.refusals.send.Some? then
                  d == Deployment(met, Err(Refused(m.key, b.refusals.send.value)))
                else d == Sending(c, owner, met, owned.read, m)
  {
    UpdatesSays(c, owner, read, m);
    hide Disowned, Suffered, Sending, Updates, ShowsLegacy;
  }

  /** Others act one after the other. */
  lemma SufferedSays(s: Server, acts: seq<Act>, a: Act)
    ensures Suffered(s, []) == s
    ensures a.Write? ==> Suffered(s, acts + [a]) == Put(Suffered(s, acts), a.content, a.terminating)
    ensures a.Delete? ==> Suffered(s, acts + [a]) == Deleted(Suffered(s, acts), a.key)
    ensures a.Remove? ==> Suffered(s, acts + [a]) == Removed(Suffered(s, acts), a.key)
  {
    SufferedAppend(s, acts, [a]);
    assert [a][1..] == [];
    var t := Suffered(s, acts);
    assert Suffered(t, [a]) == Suffered(Acted(t, a), []);
  }

  /** What opting out in the manifest means: an existing object stays, a missing one is created without saying so. */
  lemma OptingOutSays(c: Config, owner: Option<Owner>, s: Server, read: Option<Object>, m: Manifest)
    requires OptsOut(c, m)
    ensures var d := Sending(c, owner, s, read, m);
            && (m.key in s.objects ==> d == Deployment(s, Ok(0)))
            && (m.key !in s.objects ==>
                  && OthersKept(s, d.server, m.key) && d.outcome == Ok(s.lastVersion + 1)
                  && d.server.lastVersion == s.lastVersion + 1
                  && m.key in d.server.objects
                  && var o := d.server.objects[m.key];
                     && o.resourceVersion == s.lastVersion + 1 && !o.terminating
                     && o.content == m.(annotations := o.content.annotations)
                     && forall k :: At(o.content.annotations, k) ==
                                    if k == c.managedKey then None else At(m.annotations, k))
  {
  }

  /** The owner reference a deployment adds, and which manifests keep their own. */
  lemma SentOwners(c: Config, owner: Option<Owner>, read: Option<Object>, m: Manifest)
    ensures var sent := Sent(c, owner, read, m);
            if !IsOwned(c, owner, m) then sent.owners == m.owners
            else
              sent.owners == map[owner.value.uid :=
                OwnerRef(if owner.value.gvk.group == "" then owner.value.gvk.version
                         else owner.value.gvk.group + "/" + owner.value.gvk.version,
                         owner.value.gvk.kind, owner.value.name, owner.value.uid)]
    ensures var sent := Sent(c, owner, read, m);
            sent.key == m.key && sent.labels == m.labels && sent.annotations == m.annotations
  {
  }

  /** After a deployment that sent something the cache holds the manifest for the version then stored. */
  lemma DeployRecords(c: Config, owner: Option<Owner>, w: World, m: Manifest, b: Between)
    requires DeployedAmid(c, owner, w, m, b).outcome == Ok(true) && w.cache.Some?
    ensures var after := DeployedAmid(c, owner, w, m, b).world;
            && after.cache.Some?
            && (forall e | e in w.cache.value :: e in after.cache.value)
            && (forall e | e in after.cache.value && e !in w.cache.value ::
                  && e.key == m.key && e.fingerprint == m.(owners := map[])
                  && (m.key in after.server.objects && !OptsOut(c, m) ==>
                        e.resourceVersion == after.server.objects[m.key].resourceVersion))
            && (!OptsOut(c, m) ==> IsCached(after, m))
  {
    hide Disowned, Sent, Suffered, Updates;
    var d := Attempted(c, owner, w.server, Get(w.server, m.key), m, b);
    assert d.outcome.Ok?;
    assert CreateOnly(c, m) <==> OptsOut(c, m);
    if !OptsOut(c, m) {
      AttemptRecords(c, owner, w.server, Get(w.server, m.key), m, b);
    }
  }

  lemma AttemptRecords(c: Config, owner: Option<Owner>, s: Server, read: Option<Object>, m: Manifest, b: Between)
    requires Attempted(c, owner, s, read, m, b).outcome.Ok? && !CreateOnly(c, m)
    ensures var d := Attempted(c, owner, s, read, m, b);
            m.key in d.server.objects && d.outcome == Ok(d.server.objects[m.key].resourceVersion)
  {
    hide Disowned, Suffered, Updates;
    var d := Disowned(c, owner, Suffered(s, b.beforeUpdate), read, m).value;
    var met := Suffered(d.server, b.beforeSend);
    SentOwners(c, owner, d.read, m);
    hide Sent;
    assert m.key in Applied(met, Sent(c, owner, d.read, m)).objects;
  }
}
