/**
 * When may the deploy cache skip? In every reachable world a hit is compared
 * with what the path without a cache would have done.
 */
module DeployCache {
  import opened Options
  import opened Cluster
  import opened DeploySpec

  // ----- what a cached entry says about the live object -----

  predicate MergeControls(c: Config, live: Manifest, m: Manifest, p: Path) {
    live.key.gvk in c.mergeStrategies && LiveDecides(c.mergeStrategies[live.key.gvk], live.body, m.body, p)
  }

  ghost predicate Holds(live: Manifest, m: Manifest, p: Path)
    requires p in m.body
  {
    p in live.body && live.body[p] == m.body[p]
  }

  /** Every container of a manifest states its name, by which lists of containers are merged. */
  ghost predicate Named(body: map<Path, string>) {
    forall p | p in body && |p| >= 5 && CONTAINERS <= p :: CONTAINERS + [p[4]] + ["name"] in body
  }

  /**
   * The live content bears the marks of a deployment of a manifest with this
   * fingerprint, whatever others did while it was under way.
   */
  ghost predicate Reflects(c: Config, owner: Option<Owner>, live: Manifest, m: Manifest) {
    && live.key == m.key
    && Submap(m.labels, live.labels)
    && if CreateOnly(c, m) then Submap(m.annotations - {c.managedKey}, live.annotations)
       else
         && Submap(m.annotations, live.annotations)
         && !c.mode.OtherMode?
         && (PassesOwners(c, owner, m.key.gvk) || OwnedBy(owner.value, live))
         && (Named(m.body) ==>
               forall p | p in m.body :: Dropped(c, m.body, p) || MergeControls(c, live, m, p) || Holds(live, m, p))
  }

  ghost predicate OwnedBy(o: Owner, live: Manifest) {
    && OwnerAllowed(o, live.key)
    && o.uid in live.owners && live.owners[o.uid] == RefTo(o)
  }

  /** What a deployment nobody disturbed leaves besides: no legacy owner, and no `managed=true` over merged fields. */
  ghost predicate Settled(c: Config, owner: Option<Owner>, live: Manifest, m: Manifest) {
    CreateOnly(c, m) ||
    (&& (|| PassesOwners(c, owner, m.key.gvk)
         || IsLegacy(c, RefTo(owner.value))
         || NonLegacy(c, live.owners) == live.owners)
     && (Lookup(live.annotations, c.managedKey) == "true" && Lookup(m.annotations, c.managedKey) != "true" ==>
           forall p | p in m.body :: Dropped(c, m.body, p) || Holds(live, m, p)))
  }

  // ----- what the merge sends -----

  lemma StrategyLeavesRules(s: Strategy, live: map<Path, string>, desired: map<Path, string>, p: Path)
    requires LiveDecides(s, live, desired, p)
    ensures !(AGGREGATION_RULE <= p)
  {
    assert p[0] == "spec";
    assert "spec"[0] != "aggregationRule"[0];
  }

  lemma MergeKeepsAggregation(c: Config, live: Manifest, m: Manifest)
    ensures AnyUnder(Merged(c, live, m).body, AGGREGATION_RULE) == AnyUnder(m.body, AGGREGATION_RULE)
  {
    var merged := Merged(c, live, m);
    if ActiveStrategy(c, live).Some? {
      var s := ActiveStrategy(c, live).value;
      forall p | AGGREGATION_RULE <= p ensures p in merged.body <==> p in m.body {
        if LiveDecides(s, live.body, m.body, p) {
          StrategyLeavesRules(s, live.body, m.body, p);
        }
      }
    }
  }

  /** The body sent to the server, path by path. */
  lemma SentBody(c: Config, owner: Option<Owner>, live: Object, m: Manifest)
    ensures var sent := Sent(c, owner, Some(live), m);
            && sent.key == m.key && sent.labels == m.labels && sent.annotations == m.annotations
            && sent.owners == (if PassesOwners(c, owner, m.key.gvk) then m.owners
                               else map[owner.value.uid := RefTo(owner.value)])
            && (forall p | p in sent.body :: !Dropped(c, m.body, p))
            && match ActiveStrategy(c, live.content)
               case None => forall p | !Dropped(c, m.body, p) ::
                 (p in sent.body <==> p in m.body) && (p in m.body ==> sent.body[p] == m.body[p])
               case Some(s) => forall p | !Dropped(c, m.body, p) ::
                 var from := if LiveDecides(s, live.content.body, m.body, p) then live.content.body else m.body;
                 (p in sent.body <==> p in from) && (p in from ==> sent.body[p] == from[p])
  {
    var owned := if PassesOwners(c, owner, m.key.gvk) then m
                 else m.(owners := map[owner.value.uid := RefTo(owner.value)]);
    MergeKeepsAggregation(c, live.content, owned);
  }

  // ----- a deployment leaves the marks -----

  lemma NonLegacyKeeps(c: Config, owners: map<string, OwnerRef>, o: Owner)
    requires !IsLegacy(c, RefTo(o))
    ensures var after := NonLegacy(c, owners) + map[o.uid := RefTo(o)]; NonLegacy(c, after) == after
  {
  }

  lemma NotDropped(c: Config, body: map<Path, string>, p: Path)
    requires p != [] && p[0] == "spec"
    ensures !Dropped(c, body, p)
  {
    assert "rules"[0] != "spec"[0];
    assert RULES[0] != p[0];
  }

  /** What the merge took from the copy it still controls in any object the result is laid over. */
  lemma LiveDecidesSent(c: Config, owner: Option<Owner>, read: Object, m: Manifest, after: Manifest, p: Path)
    requires Named(m.body) && p in m.body && ActiveStrategy(c, read.content).Some?
    requires LiveDecides(ActiveStrategy(c, read.content).value, read.content.body, m.body, p)
    requires Sent(c, owner, Some(read), m).body.Keys <= after.body.Keys
    ensures LiveDecides(ActiveStrategy(c, read.content).value, after.body, m.body, p)
  {
    var s, sent := ActiveStrategy(c, read.content).value, Sent(c, owner, Some(read), m).body;
    SentBody(c, owner, read, m);
    hide Sent, Dropped;
    assert forall q | q in sent :: q in after.body.Keys;
    match s
    case MergeDeployments =>
      if p != REPLICAS {
        var q := CONTAINERS + [p[4]] + ["name"];
        assert q[5] == "name" && "name" != "resources";
        assert q in m.body && q[0] == "spec" && q != REPLICAS;
        NotDropped(c, m.body, q);
        assert !LiveDecides(s, read.content.body, m.body, q);
        assert q in sent && CONTAINERS + [p[4]] <= q;
      }
    case MergeObservability =>
      var q :| q in read.content.body && SPEC_RESOURCES <= q;
      NotDropped(c, m.body, q);
      assert LiveDecides(s, read.content.body, m.body, q);
      assert q in sent;
  }

  lemma OverlayBody(c: Config, owner: Option<Owner>, live: Object, read: Object, m: Manifest, p: Path)
    requires live.content.key == m.key == read.content.key && p in m.body && !Dropped(c, m.body, p)
    ensures var after := Overlay(live.content, Sent(c, owner, Some(read), m));
            && (Named(m.body) ==> Holds(after, m, p) || MergeControls(c, after, m, p))
            && (ActiveStrategy(c, read.content).None? ==> Holds(after, m, p))
  {
    var after := Overlay(live.content, Sent(c, owner, Some(read), m));
    SentBody(c, owner, read, m);
    hide Sent, LiveDecides, Dropped, Named;
    assert Sent(c, owner, Some(read), m).body.Keys <= after.body.Keys;
    if ActiveStrategy(c, read.content).Some? && Named(m.body)
       && LiveDecides(ActiveStrategy(c, read.content).value, read.content.body, m.body, p) {
      LiveDecidesSent(c, owner, read, m, after, p);
    }
  }

  lemma OverlayOwners(c: Config, owner: Owner, live: map<string, OwnerRef>)
    requires NonLegacy(c, live) == live && !IsLegacy(c, RefTo(owner))
    ensures NonLegacy(c, live + map[owner.uid := RefTo(owner)]) == live + map[owner.uid := RefTo(owner)]
  {
    NonLegacyKeeps(c, live, owner);
  }

  lemma OverlayReflects(c: Config, owner: Option<Owner>, live: Object, read: Object, m: Manifest)
    requires !CreateOnly(c, m) && !c.mode.OtherMode? && live.content.key == m.key == read.content.key
    requires PassesOwners(c, owner, m.key.gvk) || OwnerAllowed(owner.value, m.key)
    ensures Reflects(c, owner, Overlay(live.content, Sent(c, owner, Some(read), m)), Fingerprint(m))
  {
    hide Sent, LiveDecides, Dropped, MergeControls, OwnerAllowed, Overlay, Named;
    var after := Overlay(live.content, Sent(c, owner, Some(read), m));
    OverlayMetadata(c, owner, live, read, m);
    if Named(m.body) {
      forall p | p in m.body && !Dropped(c, m.body, p)
        ensures Holds(after, m, p) || MergeControls(c, after, Fingerprint(m), p)
      {
        OverlayBody(c, owner, live, read, m, p);
        MergeControlsBody(c, after, m, p);
      }
    }
  }

  /** With the live object itself as the copy the result is settled. */
  lemma OverlaySettles(c: Config, owner: Option<Owner>, live: Object, m: Manifest)
    requires live.content.key == m.key
    requires PassesOwners(c, owner, m.key.gvk) || NonLegacy(c, live.content.owners) == live.content.owners
    ensures Settled(c, owner, Overlay(live.content, Sent(c, owner, Some(live), m)), Fingerprint(m))
  {
    var after := Overlay(live.content, Sent(c, owner, Some(live), m));
    SentBody(c, owner, live, m);
    hide Sent, LiveDecides, Dropped, MergeControls, IsLegacy, NonLegacy, Named;
    if !PassesOwners(c, owner, m.key.gvk) && !IsLegacy(c, RefTo(owner.value)) {
      OverlayOwners(c, owner.value, live.content.owners);
    }
    if Lookup(after.annotations, c.managedKey) == "true" && Lookup(m.annotations, c.managedKey) != "true" {
      OverlayUnmerged(c, owner, live, m);
    }
  }

  /** Where the live object says `managed=true` nothing is merged. */
  lemma OverlayUnmerged(c: Config, owner: Option<Owner>, live: Object, m: Manifest)
    requires live.content.key == m.key && Lookup(live.content.annotations, c.managedKey) == "true"
    ensures forall p | p in m.body && !Dropped(c, m.body, p) ::
              Holds(Overlay(live.content, Sent(c, owner, Some(live), m)), m, p)
  {
    var after := Overlay(live.content, Sent(c, owner, Some(live), m));
    hide Sent, LiveDecides, Dropped, MergeControls, Named;
    assert ActiveStrategy(c, live.content).None?;
    forall p | p in m.body && !Dropped(c, m.body, p) ensures Holds(after, m, p) {
      OverlayBody(c, owner, live, live, m, p);
    }
  }

  lemma MergeControlsBody(c: Config, live: Manifest, m: Manifest, p: Path)
    ensures MergeControls(c, live, m, p) == MergeControls(c, live, Fingerprint(m), p)
  {
  }

  lemma OverlayMetadata(c: Config, owner: Option<Owner>, live: Object, read: Object, m: Manifest)
    requires live.content.key == m.key == read.content.key
    requires PassesOwners(c, owner, m.key.gvk) || OwnerAllowed(owner.value, m.key)
    ensures var after := Overlay(live.content, Sent(c, owner, Some(read), m));
            && after.key == m.key
            && Submap(m.labels, after.labels) && Submap(m.annotations, after.annotations)
            && (PassesOwners(c, owner, m.key.gvk) || OwnedBy(owner.value, after))
  {
    SentBody(c, owner, read, m);
    hide Sent, LiveDecides, Dropped, OwnerAllowed;
  }

  /** A copy that says there is nothing sends the manifest as it is. */
  lemma BlindReflects(c: Config, owner: Option<Owner>, live: Object, m: Manifest)
    requires !CreateOnly(c, m) && !c.mode.OtherMode? && live.content.key == m.key
    requires PassesOwners(c, owner, m.key.gvk) || OwnerAllowed(owner.value, m.key)
    ensures Reflects(c, owner, Overlay(live.content, Sent(c, owner, None, m)), Fingerprint(m))
  {
    hide Dropped, MergeControls, Named, OwnerAllowed;
    var sent := Sent(c, owner, None, m);
    var after := Overlay(live.content, sent);
    assert forall p | p in m.body :: Holds(after, m, p);
  }

  lemma CreateReflects(c: Config, owner: Option<Owner>, m: Manifest)
    requires !CreateOnly(c, m) && !c.mode.OtherMode?
    requires PassesOwners(c, owner, m.key.gvk) || OwnerAllowed(owner.value, m.key)
    ensures Reflects(c, owner, Sent(c, owner, None, m), Fingerprint(m))
  {
  }

  /** A server step that concerns one key only, and gives it a fresh version if it changes it. */
  ghost predicate Touches(s: Server, t: Server, k: Key) {
    && s.lastVersion <= t.lastVersion
    && t.objects.Keys <= s.objects.Keys + {k}
    && (forall k' | k' in s.objects && k' != k :: k' in t.objects && t.objects[k'] == s.objects[k'])
    && (k in t.objects ==>
          (k in s.objects && t.objects[k] == s.objects[k]) || s.lastVersion < t.objects[k].resourceVersion)
  }

  lemma AppliedTouches(s: Server, m: Manifest)
    requires ValidServer(s)
    ensures ValidServer(Applied(s, m)) && Touches(s, Applied(s, m), m.key) && m.key in Applied(s, m).objects
    ensures Applied(s, m).objects[m.key].terminating == (m.key in s.objects && s.objects[m.key].terminating)
  {
  }

  lemma LegacyRemovedTouches(c: Config, s: Server, k: Key)
    requires ValidServer(s)
    ensures ValidServer(LegacyRemoved(c, s, k)) && Touches(s, LegacyRemoved(c, s, k), k)
    ensures k in LegacyRemoved(c, s, k).objects <==> k in s.objects
    ensures k in s.objects ==> LegacyRemoved(c, s, k).objects[k].terminating == s.objects[k].terminating
    ensures k in s.objects ==>
              (LegacyRemoved(c, s, k).objects[k].content
            == s.objects[k].content.(owners := NonLegacy(c, s.objects[k].content.owners)))
    ensures k in s.objects && NonLegacy(c, s.objects[k].content.owners) != s.objects[k].content.owners ==>
              s.lastVersion < LegacyRemoved(c, s, k).lastVersion
  {
  }

  lemma TouchesTransitive(s: Server, t: Server, u: Server, k: Key)
    requires Touches(s, t, k) && Touches(t, u, k)
    ensures Touches(s, u, k)
  {
    assert k in u.objects && k in t.objects && u.objects[k] == t.objects[k] ==>
        (k in s.objects && t.objects[k] == s.objects[k]) || s.lastVersion < t.objects[k].resourceVersion;
  }

  /** The server once legacy owners are gone, on the path that manages ownership. */
  function Prepared(c: Config, owner: Option<Owner>, s: Server, k: Key): Server {
    if PassesOwners(c, owner, k.gvk) then s else LegacyRemoved(c, s, k)
  }

  lemma SentKey(c: Config, owner: Option<Owner>, live: Option<Object>, m: Manifest)
    ensures Sent(c, owner, live, m).key == m.key
  {
    if live.Some? { SentBody(c, owner, live.value, m); }
  }

  lemma UncachedTouches(c: Config, owner: Option<Owner>, s: Server, m: Manifest)
    requires ValidServer(s)
    ensures ValidServer(Uncached(c, owner, s, m).server)
    ensures Touches(s, Uncached(c, owner, s, m).server, m.key)
  {
    hide Sent, Applied, LegacyRemoved, OwnerAllowed, Overlay;
    if !CreateOnly(c, m) {
      var t := Prepared(c, owner, s, m.key);
      LegacyRemovedTouches(c, s, m.key);
      var sent := Sent(c, owner, Get(t, m.key), m);
      SentKey(c, owner, Get(t, m.key), m);
      AppliedTouches(t, sent);
      TouchesTransitive(s, t, Applied(t, sent), m.key);
    }
  }

  lemma AppliedContent(s: Server, m: Manifest)
    requires ValidServer(s)
    ensures m.key in Applied(s, m).objects
    ensures Applied(s, m).objects[m.key].content ==
            if m.key in s.objects then Overlay(s.objects[m.key].content, m) else m
  {
  }

  /** Whatever copy it worked on, the object of the version a request records reflects the manifest. */
  lemma SendReflects(c: Config, owner: Option<Owner>, s: Server, read: Option<Object>, m: Manifest)
    requires ValidServer(s) && (read.Some? ==> read.value.content.key == m.key)
    ensures var d := Sending(c, owner, s, read, m);
            && ValidServer(d.server) && Touches(s, d.server, m.key)
            && (d.outcome.Ok? ==> d.outcome.value <= d.server.lastVersion)
            && (d.outcome.Ok? && d.outcome.value != NO_VERSION ==>
                  && m.key in d.server.objects
                  && d.outcome.value == d.server.objects[m.key].resourceVersion
                  && Reflects(c, owner, d.server.objects[m.key].content, Fingerprint(m)))
  {
    var d := Sending(c, owner, s, read, m);
    if !CreateOnly(c, m) && d.outcome.Ok? {
      hide Applied, Reflects, Sent, OwnerAllowed;
      var sent := Sent(c, owner, read, m);
      SentKey(c, owner, read, m);
      AppliedTouches(s, sent);
      AppliedContent(s, sent);
      if m.key !in s.objects {
        FreshReflects(c, owner, read, m);
      } else if read.Some? {
        OverlayReflects(c, owner, s.objects[m.key], read.value, m);
      } else {
        BlindReflects(c, owner, s.objects[m.key], m);
      }
    }
  }

  /** The object created where the copy's has gone. */
  lemma FreshReflects(c: Config, owner: Option<Owner>, read: Option<Object>, m: Manifest)
    requires !CreateOnly(c, m) && !c.mode.OtherMode? && (read.Some? ==> read.value.content.key == m.key)
    requires PassesOwners(c, owner, m.key.gvk) || OwnerAllowed(owner.value, m.key)
    ensures Reflects(c, owner, Sent(c, owner, read, m), Fingerprint(m))
  {
    if read.None? {
      CreateReflects(c, owner, m);
    } else {
      var sent := Sent(c, owner, read, m);
      var nothing := Object(Manifest(m.key, map[], map[], map[], map[]), NO_VERSION, false);
      SentKey(c, owner, read, m);
      assert Overlay(nothing.content, sent) == sent;
      hide Sent, Reflects;
      OverlayReflects(c, owner, nothing, read.value, m);
    }
  }

  /** After a deployment nobody disturbed, the object is settled as well. */
  lemma DeployReflects(c: Config, owner: Option<Owner>, s: Server, m: Manifest)
    requires ValidServer(s)
    ensures var d := Uncached(c, owner, s, m);
            d.outcome.Ok? && d.outcome.value != NO_VERSION ==>
              && m.key in d.server.objects
              && d.outcome.value == d.server.objects[m.key].resourceVersion
              && Reflects(c, owner, d.server.objects[m.key].content, Fingerprint(m))
              && Settled(c, owner, d.server.objects[m.key].content, Fingerprint(m))
  {
    var d := Uncached(c, owner, s, m);
    if d.outcome.Ok? && d.outcome.value != NO_VERSION && !CreateOnly(c, m) {
      var t := Prepared(c, owner, s, m.key);
      LegacyRemovedTouches(c, s, m.key);
      if !PassesOwners(c, owner, m.key.gvk) && m.key in s.objects {
        NonLegacyTwice(c, s.objects[m.key].content.owners);
      }
      hide Sent, Applied, LegacyRemoved, Reflects, Settled, NonLegacy;
      assert d == Sending(c, owner, t, Get(t, m.key), m);
      SendReflects(c, owner, t, Get(t, m.key), m);
      SendSettles(c, owner, t, m);
    }
  }

  lemma SendSettles(c: Config, owner: Option<Owner>, s: Server, m: Manifest)
    requires ValidServer(s) && !CreateOnly(c, m) && Sending(c, owner, s, Get(s, m.key), m).outcome.Ok?
    requires m.key in s.objects && !PassesOwners(c, owner, m.key.gvk) ==>
               NonLegacy(c, s.objects[m.key].content.owners) == s.objects[m.key].content.owners
    ensures var d := Sending(c, owner, s, Get(s, m.key), m);
            m.key in d.server.objects && Settled(c, owner, d.server.objects[m.key].content, Fingerprint(m))
  {
    hide Applied, Settled, OwnerAllowed;
    var sent := Sent(c, owner, Get(s, m.key), m);
    SentKey(c, owner, Get(s, m.key), m);
    AppliedContent(s, sent);
    if m.key in s.objects {
      hide Sent;
      OverlaySettles(c, owner, s.objects[m.key], m);
    } else {
      CreateSettles(c, owner, m);
    }
  }

  lemma CreateSettles(c: Config, owner: Option<Owner>, m: Manifest)
    ensures Settled(c, owner, Sent(c, owner, None, m), Fingerprint(m))
  {
    if !PassesOwners(c, owner, m.key.gvk) && !IsLegacy(c, RefTo(owner.value)) {
      var owners := map[owner.value.uid := RefTo(owner.value)];
      assert NonLegacy(c, owners) == owners;
    }
  }

  lemma NonLegacyTwice(c: Config, owners: map<string, OwnerRef>)
    ensures NonLegacy(c, NonLegacy(c, owners)) == NonLegacy(c, owners)
  {
  }

  // ----- when a skip is right -----

  /**
   * What a caller can check on the live object and the manifest: the manifest's
   * own owner references (where they are applied) are already there, no legacy
   * owner is left, and a live object that says `managed=true`, which a merge
   * strategy no longer protects, already has every field of the manifest.
   */
  ghost predicate SkipGuard(c: Config, owner: Option<Owner>, live: Manifest, m: Manifest) {
    CreateOnly(c, m) ||
    (&& (PassesOwners(c, owner, m.key.gvk) ==> Submap(m.owners, live.owners))
     && (!PassesOwners(c, owner, m.key.gvk) ==> NonLegacy(c, live.owners) == live.owners)
     && (m.key.gvk in c.mergeStrategies && Lookup(live.annotations, c.managedKey) == "true" ==>
           forall p | p in m.body && !Dropped(c, m.body, p) :: Holds(live, m, p)))
  }

  lemma OverlayUnchanged(live: Manifest, sent: Manifest)
    ensures Overlay(live, sent) == live <==>
            && Submap(sent.labels, live.labels) && Submap(sent.annotations, live.annotations)
            && Submap(sent.owners, live.owners) && Submap(sent.body, live.body)
  {
    MergeOfSubmap(sent.labels, live.labels);
    MergeOfSubmap(sent.annotations, live.annotations);
    MergeOfSubmap(sent.owners, live.owners);
    MergeOfSubmap(sent.body, live.body);
  }

  lemma AppliedUnchanged(s: Server, m: Manifest)
    requires m.key in s.objects
    ensures Applied(s, m) == s <==> Overlay(s.objects[m.key].content, m) == s.objects[m.key].content
  {
  }

  /** Whether the body sent now would change anything, on a live object that reflects the manifest. */
  lemma ReflectedBody(c: Config, owner: Option<Owner>, live: Object, m: Manifest)
    requires !CreateOnly(c, m) && Reflects(c, owner, live.content, Fingerprint(m))
    ensures var same := Submap(Sent(c, owner, Some(live), m).body, live.content.body);
            var stated := m.key.gvk in c.mergeStrategies && Lookup(live.content.annotations, c.managedKey) == "true" ==>
                            forall p | p in m.body && !Dropped(c, m.body, p) :: Holds(live.content, m, p);
            (same ==> stated) && (Named(m.body) && stated ==> same)
  {
    SentBody(c, owner, live, m);
    var sent := Sent(c, owner, Some(live), m).body;
    hide Sent, Dropped, Named, OwnedBy;
    if ActiveStrategy(c, live.content).Some? {
      if Named(m.body) {
        assert Submap(sent, live.content.body);
      }
    } else {
      forall p | p in m.body && !Dropped(c, m.body, p)
        ensures p in sent && (sent[p] == m.body[p])
      {}
      if m.key.gvk !in c.mergeStrategies && Named(m.body) {
        assert forall p | p in sent :: p in m.body && Holds(live.content, m, p);
      }
    }
  }

  lemma SkipRightExactlyWhen(c: Config, owner: Option<Owner>, s: Server, m: Manifest)
    requires ValidServer(s) && m.key in s.objects
    requires Reflects(c, owner, s.objects[m.key].content, Fingerprint(m))
    ensures Uncached(c, owner, s, m).server == s ==> SkipGuard(c, owner, s.objects[m.key].content, m)
    ensures Named(m.body) ==>
              (Uncached(c, owner, s, m).server == s <==> SkipGuard(c, owner, s.objects[m.key].content, m))
  {
    hide Reflects, Named;
    if !CreateOnly(c, m) {
      var live := s.objects[m.key];
      if PassesOwners(c, owner, m.key.gvk) || NonLegacy(c, live.content.owners) == live.content.owners {
        SkipRightOnceOwned(c, owner, s, m);
      } else {
        LegacyOwnerIsWritten(c, owner, s, m);
      }
    }
  }

  lemma LegacyOwnerIsWritten(c: Config, owner: Option<Owner>, s: Server, m: Manifest)
    requires ValidServer(s) && m.key in s.objects && !CreateOnly(c, m) && !PassesOwners(c, owner, m.key.gvk)
    requires NonLegacy(c, s.objects[m.key].content.owners) != s.objects[m.key].content.owners
    ensures Uncached(c, owner, s, m).server != s && !SkipGuard(c, owner, s.objects[m.key].content, m)
  {
    hide Sent, Applied, LegacyRemoved, NonLegacy, OwnerAllowed;
    var t := LegacyRemoved(c, s, m.key);
    LegacyRemovedTouches(c, s, m.key);
    SentKey(c, owner, Get(t, m.key), m);
    AppliedTouches(t, Sent(c, owner, Get(t, m.key), m));
  }

  lemma SkipRightOnceOwned(c: Config, owner: Option<Owner>, s: Server, m: Manifest)
    requires ValidServer(s) && m.key in s.objects && !CreateOnly(c, m)
    requires Reflects(c, owner, s.objects[m.key].content, Fingerprint(m))
    requires !PassesOwners(c, owner, m.key.gvk) ==>
               NonLegacy(c, s.objects[m.key].content.owners) == s.objects[m.key].content.owners
    ensures Uncached(c, owner, s, m).server == s ==> SkipGuard(c, owner, s.objects[m.key].content, m)
    ensures Named(m.body) ==>
              (Uncached(c, owner, s, m).server == s <==> SkipGuard(c, owner, s.objects[m.key].content, m))
  {
    var live := s.objects[m.key];
    var sent := Sent(c, owner, Some(live), m);
    SentBody(c, owner, live, m);
    AppliedUnchanged(s, sent);
    OverlayUnchanged(live.content, sent);
    ReflectedBody(c, owner, live, m);
    hide Sent, Applied, Overlay, Dropped, NonLegacy, Named;
    assert Prepared(c, owner, s, m.key) == s;
    assert Uncached(c, owner, s, m).server == Applied(s, sent);
  }

  // ----- reachable worlds -----

  /**
   * The steps of which every history consists: a request that stores a manifest
   * merged with some copy of the live object, an act of anyone else, and entries
   * going out of the cache. The copy may be anything: what the deployer has just
   * read, what it read before others acted, or what an outdated cache of the
   * client returned.
   */
  datatype Event = Send(m: Manifest, read: Option<Object>) | Foreign(act: Act) | Expire(entries: set<CacheKey>)

  function Next(c: Config, owner: Option<Owner>, w: World, e: Event): World {
    match e
    case Send(m, read) =>
      if read.Some? && read.value.content.key != m.key then w
      else
        var d := Sending(c, owner, w.server, read, m);
        var after := w.(server := d.server);
        (match d.outcome
         case Err(_) => after
         case Ok(version) => Remembered(after, CacheKey(m.key, version, Fingerprint(m))))
    case Foreign(act) => w.(server := Acted(w.server, act))
    case Expire(entries) => w.(cache := if w.cache.Some? then Some(w.cache.value - entries) else None)
  }

  function Reached(c: Config, owner: Option<Owner>, w: World, es: seq<Event>): World
    decreases |es|
  {
    if es == [] then w else Reached(c, owner, Next(c, owner, w, es[0]), es[1..])
  }

  lemma {:induction false} ReachedAppend(c: Config, owner: Option<Owner>, w: World, es: seq<Event>, fs: seq<Event>)
    ensures Reached(c, owner, w, es + fs) == Reached(c, owner, Reached(c, owner, w, es), fs)
    decreases |es|
  {
    if es == [] {
      assert es + fs == fs;
    } else {
      assert (es + fs)[1..] == es[1..] + fs;
      ReachedAppend(c, owner, Next(c, owner, w, es[0]), es[1..], fs);
    }
  }

  // ----- a deployment, however disturbed, is such a history -----

  function Foreigns(acts: seq<Act>): seq<Event> {
    seq(|acts|, i requires 0 <= i < |acts| => Foreign(acts[i]))
  }

  lemma {:induction false} SufferedIsHistory(c: Config, owner: Option<Owner>, w: World, acts: seq<Act>)
    ensures Reached(c, owner, w, Foreigns(acts)) == w.(server := Suffered(w.server, acts))
    decreases |acts|
  {
    if acts != [] {
      assert Foreigns(acts)[1..] == Foreigns(acts[1..]);
      SufferedIsHistory(c, owner, w.(server := Acted(w.server, acts[0])), acts[1..]);
    }
  }

  lemma ReachedOne(c: Config, owner: Option<Owner>, w: World, e: Event)
    ensures Reached(c, owner, w, [e]) == Next(c, owner, w, e)
  {
    assert [e][1..] == [];
  }

  /** Dropping legacy owners is a write like any other; it happens if the copy is up to date. */
  lemma DisownedIsWrite(c: Config, owner: Option<Owner>, s: Server, read: Option<Object>, m: Manifest)
    returns (acts: seq<Act>)
    requires ValidServer(s) && (read.Some? ==> read.value.content.key == m.key)
    ensures var d := Disowned(c, owner, s, read, m);
            d.Ok? ==> && Suffered(s, acts) == d.value.server
                      && (d.value.read.Some? ==> d.value.read.value.content.key == m.key)
  {
    hide NonLegacy, CreateOnly, PassesOwners;
    acts := [];
    var d := Disowned(c, owner, s, read, m);
    if d.Ok? && d.value.server != s {
      var kept := read.value.content.(key := m.key, owners := NonLegacy(c, read.value.content.owners));
      acts := [Write(kept, s.objects[m.key].terminating)];
      assert acts[1..] == [];
    }
  }

  /**
   * Whatever others do between the read, the update and the request, the world
   * after a deployment is one these steps reach. So what is proved of every
   * history holds of every interleaving of every deployer sharing the cache.
   */
  lemma DeploymentIsHistory(c: Config, owner: Option<Owner>, w: World, m: Manifest, b: Between) returns (es: seq<Event>)
    requires ValidServer(w.server)
    ensures DeployedAmid(c, owner, w, m, b).world == Reached(c, owner, w, es)
  {
    var verdict := Decide(c, w, m);
    if b.refusals.read.Some? {
      es := [];
    } else if verdict.Terminating? {
      var e := CacheKey(m.key, VersionAt(w.server, m.key), Fingerprint(m));
      es := [Expire({e})];
      ReachedOne(c, owner, w, es[0]);
    } else if !verdict.Deploys? {
      es := [];
    } else {
      var read := Get(w.server, m.key);
      var before := w.(server := Suffered(w.server, b.beforeUpdate));
      SufferedIsHistory(c, owner, w, b.beforeUpdate);
      SufferedValid(w.server, b.beforeUpdate);
      var d := Disowned(c, owner, before.server, read, m);
      hide Sending, Disowned, Decide, Updates, Requests;
      if d.Err? || (Updates(c, owner, read, m) && b.refusals.update.Some?) {
        es := Foreigns(b.beforeUpdate);
      } else if Requests(c, owner, m) && b.refusals.send.Some? {
        var acts := DisownedIsWrite(c, owner, before.server, read, m);
        var disowned := before.(server := d.value.server);
        SufferedIsHistory(c, owner, before, acts);
        SufferedIsHistory(c, owner, disowned, b.beforeSend);
        es := Foreigns(b.beforeUpdate) + (Foreigns(acts) + Foreigns(b.beforeSend));
        ReachedAppend(c, owner, w, Foreigns(b.beforeUpdate), Foreigns(acts) + Foreigns(b.beforeSend));
        ReachedAppend(c, owner, before, Foreigns(acts), Foreigns(b.beforeSend));
      } else {
        var acts := DisownedIsWrite(c, owner, before.server, read, m);
        var disowned := before.(server := d.value.server);
        SufferedIsHistory(c, owner, before, acts);
        var met := disowned.(server := Suffered(disowned.server, b.beforeSend));
        SufferedIsHistory(c, owner, disowned, b.beforeSend);
        var last := Send(m, d.value.read);
        ReachedOne(c, owner, met, last);
        es := Foreigns(b.beforeUpdate) + (Foreigns(acts) + (Foreigns(b.beforeSend) + [last]));
        ReachedAppend(c, owner, w, Foreigns(b.beforeUpdate), Foreigns(acts) + (Foreigns(b.beforeSend) + [last]));
        ReachedAppend(c, owner, before, Foreigns(acts), Foreigns(b.beforeSend) + [last]);
        ReachedAppend(c, owner, disowned, Foreigns(b.beforeSend), [last]);
      }
    }
  }

  // ----- what every history keeps -----

  ghost predicate EntryHolds(c: Config, owner: Option<Owner>, s: Server, e: CacheKey) {
    && e.resourceVersion <= s.lastVersion
    && e.fingerprint.key == e.key
    && (e.key in s.objects && s.objects[e.key].resourceVersion == e.resourceVersion ==>
          Reflects(c, owner, s.objects[e.key].content, e.fingerprint))
  }

  /** The invariant: an entry whose version is still live describes the live object. */
  ghost predicate Coherent(c: Config, owner: Option<Owner>, w: World) {
    && ValidServer(w.server)
    && (w.cache.Some? ==> forall e | e in w.cache.value :: EntryHolds(c, owner, w.server, e))
  }

  lemma TouchKeepsEntry(c: Config, owner: Option<Owner>, s: Server, t: Server, k: Key, e: CacheKey)
    requires ValidServer(s) && Touches(s, t, k) && EntryHolds(c, owner, s, e)
    ensures EntryHolds(c, owner, t, e)
  {
    hide Reflects;
    assert e.key in t.objects && e.key != k ==> e.key in s.objects;
  }

  lemma TouchKeepsCoherent(c: Config, owner: Option<Owner>, w: World, t: Server, k: Key)
    requires Coherent(c, owner, w) && Touches(w.server, t, k) && ValidServer(t)
    ensures Coherent(c, owner, w.(server := t))
  {
    if w.cache.Some? {
      forall e | e in w.cache.value ensures EntryHolds(c, owner, t, e) {
        TouchKeepsEntry(c, owner, w.server, t, k, e);
      }
    }
  }

  lemma SendKeepsCoherent(c: Config, owner: Option<Owner>, w: World, m: Manifest, read: Option<Object>)
    requires Coherent(c, owner, w)
    ensures Coherent(c, owner, Next(c, owner, w, Send(m, read)))
  {
    if read.Some? ==> read.value.content.key == m.key {
      hide Sending, Reflects;
      var d := Sending(c, owner, w.server, read, m);
      SendReflects(c, owner, w.server, read, m);
      TouchKeepsCoherent(c, owner, w, d.server, m.key);
      if d.outcome.Ok? {
        assert EntryHolds(c, owner, d.server, CacheKey(m.key, d.outcome.value, Fingerprint(m)));
      }
    }
  }

  lemma ActTouches(s: Server, a: Act)
    requires ValidServer(s)
    ensures ValidServer(Acted(s, a)) && Touches(s, Acted(s, a), KeyOf(a))
  {
  }

  lemma StepKeepsCoherent(c: Config, owner: Option<Owner>, w: World, e: Event)
    requires Coherent(c, owner, w)
    ensures Coherent(c, owner, Next(c, owner, w, e))
  {
    hide Reflects, Sending;
    match e
    case Send(m, read) => SendKeepsCoherent(c, owner, w, m, read);
    case Foreign(act) =>
      ActTouches(w.server, act);
      TouchKeepsCoherent(c, owner, w, Acted(w.server, act), KeyOf(act));
    case Expire(_) =>
  }

  lemma {:induction false} ReachedCoherent(c: Config, owner: Option<Owner>, w: World, es: seq<Event>)
    requires Coherent(c, owner, w)
    ensures Coherent(c, owner, Reached(c, owner, w, es))
    decreases |es|
  {
    if es != [] {
      StepKeepsCoherent(c, owner, w, es[0]);
      ReachedCoherent(c, owner, Next(c, owner, w, es[0]), es[1..]);
    }
  }

  /** A deployment keeps the cache coherent, whatever others do meanwhile. */
  lemma DeployKeepsCoherent(c: Config, owner: Option<Owner>, w: World, m: Manifest, b: Between)
    requires Coherent(c, owner, w)
    ensures Coherent(c, owner, DeployedAmid(c, owner, w, m, b).world)
  {
    var es := DeploymentIsHistory(c, owner, w, m, b);
    ReachedCoherent(c, owner, w, es);
  }

  lemma HitReflects(c: Config, owner: Option<Owner>, w: World, m: Manifest)
    requires Coherent(c, owner, w) && Decide(c, w, m).CacheHit?
    ensures m.key in w.server.objects && Reflects(c, owner, w.server.objects[m.key].content, Fingerprint(m))
  {
    hide Reflects;
    var e := CacheKey(m.key, w.server.objects[m.key].resourceVersion, Fingerprint(m));
    assert e in w.cache.value && EntryHolds(c, owner, w.server, e);
  }

  /**
   * The cache against the path without it. In every world reached from a
   * coherent one (an empty cache is) by any history, a hit skips work the other
   * path would not have done exactly when `SkipGuard` holds; and unless the
   * manifest is create-only, the live object carries every annotation of the
   * manifest, stamps included.
   */
  lemma HitIsRightExactlyWhen(c: Config, owner: Option<Owner>, w0: World, es: seq<Event>, m: Manifest)
    requires Coherent(c, owner, w0) && Named(m.body)
    requires Decide(c, Reached(c, owner, w0, es), m).CacheHit?
    ensures var s := Reached(c, owner, w0, es).server;
            && m.key in s.objects
            && (Uncached(c, owner, s, m).server == s <==> SkipGuard(c, owner, s.objects[m.key].content, m))
            && (!CreateOnly(c, m) ==> Submap(m.annotations, s.objects[m.key].content.annotations))
  {
    ReachedCoherent(c, owner, w0, es);
    var w := Reached(c, owner, w0, es);
    HitReflects(c, owner, w, m);
    SkipRightExactlyWhen(c, owner, w.server, m);
  }

  /** No own references where the manifest's would be applied. */
  predicate PlainManifest(c: Config, owner: Option<Owner>, m: Manifest) {
    PassesOwners(c, owner, m.key.gvk) ==> m.owners == map[]
  }

  /** No legacy owner left to drop, and no `managed=true` to switch the merge off. */
  predicate PlainObject(c: Config, owner: Option<Owner>, live: Manifest) {
    && (!PassesOwners(c, owner, live.key.gvk) ==> NonLegacy(c, live.owners) == live.owners)
    && (live.key.gvk in c.mergeStrategies ==> Lookup(live.annotations, c.managedKey) != "true")
  }

  /** For plain manifests every hit on a plain object is right, after any history and any races. */
  lemma PlainHitsAreRight(c: Config, owner: Option<Owner>, w0: World, es: seq<Event>, m: Manifest)
    requires Coherent(c, owner, w0) && Named(m.body) && PlainManifest(c, owner, m)
    requires var w := Reached(c, owner, w0, es);
             Decide(c, w, m).CacheHit? && PlainObject(c, owner, w.server.objects[m.key].content)
    ensures Uncached(c, owner, Reached(c, owner, w0, es).server, m).server == Reached(c, owner, w0, es).server
  {
    ReachedCoherent(c, owner, w0, es);
    HitReflects(c, owner, Reached(c, owner, w0, es), m);
    HitIsRightExactlyWhen(c, owner, w0, es, m);
    hide Uncached, Decide, NonLegacy;
  }

  // ----- histories without races -----

  /** A request works on the live object itself, legacy owners gone. */
  predicate Calm(c: Config, owner: Option<Owner>, w: World, e: Event) {
    e.Send? && !CreateOnly(c, e.m) ==>
      && e.read == Get(w.server, e.m.key)
      && (e.read.Some? && !PassesOwners(c, owner, e.m.key.gvk) ==>
            NonLegacy(c, e.read.value.content.owners) == e.read.value.content.owners)
  }

  predicate AllCalm(c: Config, owner: Option<Owner>, w: World, es: seq<Event>)
    decreases |es|
  {
    es == [] || (Calm(c, owner, w, es[0]) && AllCalm(c, owner, Next(c, owner, w, es[0]), es[1..]))
  }

  ghost predicate EntrySettled(c: Config, owner: Option<Owner>, s: Server, e: CacheKey) {
    e.key in s.objects && s.objects[e.key].resourceVersion == e.resourceVersion ==>
      Settled(c, owner, s.objects[e.key].content, e.fingerprint)
  }

  ghost predicate CacheSettled(c: Config, owner: Option<Owner>, w: World) {
    w.cache.Some? ==> forall e | e in w.cache.value :: EntrySettled(c, owner, w.server, e)
  }

  lemma TouchKeepsSettled(c: Config, owner: Option<Owner>, w: World, t: Server, k: Key)
    requires Coherent(c, owner, w) && CacheSettled(c, owner, w) && Touches(w.server, t, k)
    ensures CacheSettled(c, owner, w.(server := t))
  {
    hide Settled, Reflects;
    if w.cache.Some? {
      forall e | e in w.cache.value ensures EntrySettled(c, owner, t, e) {
        assert EntryHolds(c, owner, w.server, e) && EntrySettled(c, owner, w.server, e);
        assert e.key in t.objects && e.key != k ==> e.key in w.server.objects;
      }
    }
  }

  lemma CalmStepSettles(c: Config, owner: Option<Owner>, w: World, e: Event)
    requires Coherent(c, owner, w) && CacheSettled(c, owner, w) && Calm(c, owner, w, e)
    ensures CacheSettled(c, owner, Next(c, owner, w, e))
  {
    match e
    case Send(m, read) =>
      if read.Some? ==> read.value.content.key == m.key {
        var d := Sending(c, owner, w.server, read, m);
        SendReflects(c, owner, w.server, read, m);
        TouchKeepsSettled(c, owner, w, d.server, m.key);
        if d.outcome.Ok? {
          if !CreateOnly(c, m) {
            SendSettles(c, owner, w.server, m);
          }
          hide Sending, Reflects;
          assert EntrySettled(c, owner, d.server, CacheKey(m.key, d.outcome.value, Fingerprint(m)));
        }
      }
    case Foreign(act) =>
      ActTouches(w.server, act);
      TouchKeepsSettled(c, owner, w, Acted(w.server, act), KeyOf(act));
    case Expire(_) =>
  }

  lemma {:induction false} CalmHistorySettles(c: Config, owner: Option<Owner>, w: World, es: seq<Event>)
    requires Coherent(c, owner, w) && CacheSettled(c, owner, w) && AllCalm(c, owner, w, es)
    ensures CacheSettled(c, owner, Reached(c, owner, w, es))
    decreases |es|
  {
    if es != [] {
      StepKeepsCoherent(c, owner, w, es[0]);
      CalmStepSettles(c, owner, w, es[0]);
      CalmHistorySettles(c, owner, Next(c, owner, w, es[0]), es[1..]);
    }
  }

  /** Decided before any call, by manifest and configuration alone. */
  predicate NeverFlips(c: Config, owner: Option<Owner>, m: Manifest) {
    && (!PassesOwners(c, owner, m.key.gvk) ==> !IsLegacy(c, RefTo(owner.value)))
    && (m.key.gvk in c.mergeStrategies ==> Lookup(m.annotations, c.managedKey) != "true")
  }

  /** Without races the manifest alone decides: others may edit at will, but not during a deployment. */
  lemma CalmHitsAreRight(c: Config, owner: Option<Owner>, w0: World, es: seq<Event>, m: Manifest)
    requires Coherent(c, owner, w0) && CacheSettled(c, owner, w0) && AllCalm(c, owner, w0, es)
    requires Named(m.body) && PlainManifest(c, owner, m) && NeverFlips(c, owner, m)
    requires Decide(c, Reached(c, owner, w0, es), m).CacheHit?
    ensures Uncached(c, owner, Reached(c, owner, w0, es).server, m).server == Reached(c, owner, w0, es).server
  {
    HitIsRightExactlyWhen(c, owner, w0, es, m);
    CalmHistorySettles(c, owner, w0, es);
    ReachedCoherent(c, owner, w0, es);
    var w := Reached(c, owner, w0, es);
    HitReflects(c, owner, w, m);
    hide Uncached, NonLegacy, Dropped, Named;
    assert EntrySettled(c, owner, w.server, CacheKey(m.key, w.server.objects[m.key].resourceVersion, Fingerprint(m)));
  }

  /**
   * A wrong skip: a manifest that turns `managed=true` on over a live object
   * whose replicas the merge had preserved. The first deployment still merges,
   * the next one would reset the replicas, and the cache hides it.
   */
  lemma ManagedFlipIsHidden(c: Config, owner: Option<Owner>, w: World, m: Manifest)
    requires Coherent(c, owner, w) && w.cache.Some? && Decide(c, w, m).Deploys? && m.key in w.server.objects
    requires m.key.gvk in c.mergeStrategies && c.mergeStrategies[m.key.gvk] == MergeDeployments
    requires Uncached(c, owner, w.server, m).outcome.Ok?
    requires Lookup(w.server.objects[m.key].content.annotations, c.managedKey) != "true"
    requires c.managedKey in m.annotations && m.annotations[c.managedKey] == "true"
    requires REPLICAS in m.body && REPLICAS in w.server.objects[m.key].content.body
    requires m.body[REPLICAS] != w.server.objects[m.key].content.body[REPLICAS]
    ensures var w' := DeployedOne(c, owner, w, m).world;
            Decide(c, w', m).CacheHit? && Uncached(c, owner, w'.server, m).server != w'.server
  {
    hide Uncached, Reflects, Decide, DeployedOne, Dropped, LiveDecides;
    TrueIsNotFalse();
    NotDropped(c, m.body, REPLICAS);
    ReplicasArePreserved(c, owner, w.server, m);
    NextIsHit(c, owner, w, m);
    var w' := DeployedOne(c, owner, w, m).world;
    SkipRightExactlyWhen(c, owner, w'.server, m);
    assert !Holds(w'.server.objects[m.key].content, m, REPLICAS);
  }

  lemma TrueIsNotFalse()
    ensures "true" != "false"
  {
    assert "true"[0] != "false"[0];
  }

  /** A deployment that stores something makes the next attempt a hit, unless the object has opted out. */
  lemma NextIsHit(c: Config, owner: Option<Owner>, w: World, m: Manifest)
    requires Coherent(c, owner, w) && w.cache.Some? && Decide(c, w, m).Deploys?
    requires Uncached(c, owner, w.server, m).outcome.Ok? && !CreateOnly(c, m)
    ensures var w' := DeployedOne(c, owner, w, m).world;
            && w'.server == Uncached(c, owner, w.server, m).server
            && ValidServer(w'.server) && m.key in w'.server.objects
            && Reflects(c, owner, w'.server.objects[m.key].content, Fingerprint(m))
            && (Lookup(w'.server.objects[m.key].content.annotations, c.managedKey) != "false" ==>
                Decide(c, w', m).CacheHit?)
  {
    UncachedTouches(c, owner, w.server, m);
    DeployReflects(c, owner, w.server, m);
    UncachedVersion(c, owner, w.server, m);
    hide Uncached, Reflects;
  }

  lemma UncachedVersion(c: Config, owner: Option<Owner>, s: Server, m: Manifest)
    requires ValidServer(s) && Uncached(c, owner, s, m).outcome.Ok? && !CreateOnly(c, m)
    requires m.key in s.objects ==> !s.objects[m.key].terminating
    ensures Uncached(c, owner, s, m).outcome.value != NO_VERSION
    ensures m.key in Uncached(c, owner, s, m).server.objects
    ensures !Uncached(c, owner, s, m).server.objects[m.key].terminating
  {
    hide Sent, Applied, LegacyRemoved;
    var t := Prepared(c, owner, s, m.key);
    LegacyRemovedTouches(c, s, m.key);
    SentKey(c, owner, Get(t, m.key), m);
    AppliedTouches(t, Sent(c, owner, Get(t, m.key), m));
  }

  lemma ReplicasArePreserved(c: Config, owner: Option<Owner>, s: Server, m: Manifest)
    requires ValidServer(s) && m.key in s.objects && Uncached(c, owner, s, m).outcome.Ok? && !CreateOnly(c, m)
    requires m.key.gvk in c.mergeStrategies && c.mergeStrategies[m.key.gvk] == MergeDeployments
    requires Lookup(s.objects[m.key].content.annotations, c.managedKey) != "true"
    requires REPLICAS in s.objects[m.key].content.body
    ensures m.key in Uncached(c, owner, s, m).server.objects
    ensures var after := Uncached(c, owner, s, m).server.objects[m.key];
            && after.terminating == s.objects[m.key].terminating
            && Submap(m.annotations, after.content.annotations)
            && REPLICAS in after.content.body && after.content.body[REPLICAS] == s.objects[m.key].content.body[REPLICAS]
  {
    var t := Prepared(c, owner, s, m.key);
    LegacyRemovedTouches(c, s, m.key);
    var live := t.objects[m.key];
    assert live.content.body == s.objects[m.key].content.body;
    assert live.content.annotations == s.objects[m.key].content.annotations;
    UncachedApplies(c, owner, s, m);
    hide Sent, Applied, LegacyRemoved, OwnerAllowed, PassesOwners, Uncached, Prepared;
    SentReplicas(c, owner, live, m);
    AppliedContent(t, Sent(c, owner, Some(live), m));
    AppliedTouches(t, Sent(c, owner, Some(live), m));
  }

  lemma SentReplicas(c: Config, owner: Option<Owner>, live: Object, m: Manifest)
    requires live.content.key == m.key && REPLICAS in live.content.body
    requires m.key.gvk in c.mergeStrategies && c.mergeStrategies[m.key.gvk] == MergeDeployments
    requires Lookup(live.content.annotations, c.managedKey) != "true"
    ensures var sent := Sent(c, owner, Some(live), m);
            && sent.key == m.key && sent.annotations == m.annotations
            && REPLICAS in sent.body && sent.body[REPLICAS] == live.content.body[REPLICAS]
  {
    SentBody(c, owner, live, m);
    hide Sent, PassesOwners, AnyUnder;
    NotDropped(c, m.body, REPLICAS);
    assert LiveDecides(MergeDeployments, live.content.body, m.body, REPLICAS);
  }

  // ----- what a deployment stores, path by path -----

  function At(body: map<Path, string>, p: Path): Option<string> {
    if p in body then Some(body[p]) else None
  }

  /** Some path of the body lies under this one. */
  ghost predicate Under(body: map<Path, string>, prefix: Path) {
    exists q | q in body :: prefix <= q
  }

  /** The resources of a container that both bodies have. */
  ghost predicate SharedResources(x: map<Path, string>, y: map<Path, string>, p: Path) {
    exists name: string ::
      && ["spec", "template", "spec", "containers", name, "resources"] <= p
      && Under(x, ["spec", "template", "spec", "containers", name])
      && Under(y, ["spec", "template", "spec", "containers", name])
  }

  /**
   * Where the copy of the live object decides: nowhere without a merge strategy or
   * once it says `managed=true`. Of a Deployment, the replicas and the resources
   * of the containers it shares with the manifest; of a monitoring resource, the
   * resources if it has any.
   */
  ghost predicate CopyDecides(c: Config, read: Manifest, m: Manifest, p: Path) {
    && m.key.gvk in c.mergeStrategies
    && !(c.managedKey in read.annotations && read.annotations[c.managedKey] == "true")
    && match c.mergeStrategies[m.key.gvk]
       case MergeDeployments => p == ["spec", "replicas"] || SharedResources(read.body, m.body, p)
       case MergeObservability => ["spec", "resources"] <= p && Under(read.body, ["spec", "resources"])
  }

  /** The rules of an aggregated role are left to the controller that fills them in. */
  ghost predicate LeftAlone(c: Config, m: Manifest, p: Path) {
    c.mode.ModeSSA? && Under(m.body, ["aggregationRule"]) && ["rules"] <= p
  }

  lemma LiveDecidesExactlyWhen(c: Config, read: Manifest, m: Manifest, p: Path)
    requires read.key == m.key
    ensures var s := ActiveStrategy(c, read);
            CopyDecides(c, read, m, p) <==> s.Some? && LiveDecides(s.value, read.body, m.body, p)
  {
    var s := ActiveStrategy(c, read);
    forall name { UnderContainer(read.body, m.body, name); }
    if s == Some(MergeDeployments) {
      if |p| >= 6 && CONTAINERS <= p && p[5] == "resources" {
        assert CONTAINERS + [p[4], "resources"] <= p;
        assert ["spec", "template", "spec", "containers", p[4], "resources"] == CONTAINERS + [p[4], "resources"];
      }
      if name: string :| ["spec", "template", "spec", "containers", name, "resources"] <= p
                         && Under(read.body, ["spec", "template", "spec", "containers", name])
                         && Under(m.body, ["spec", "template", "spec", "containers", name]) {
        assert p[4] == name && p[5] == "resources";
      }
    }
  }

  lemma UnderContainer(x: map<Path, string>, y: map<Path, string>, name: string)
    ensures HasContainer(x, name) <==> Under(x, ["spec", "template", "spec", "containers", name])
    ensures HasContainer(y, name) <==> Under(y, ["spec", "template", "spec", "containers", name])
  {
    assert ["spec", "template", "spec", "containers", name] == CONTAINERS + [name];
  }

  /** What is sent, path by path. */
  lemma SentAt(c: Config, owner: Option<Owner>, read: Object, m: Manifest, p: Path)
    requires read.content.key == m.key
    ensures At(Sent(c, owner, Some(read), m).body, p) ==
            if LeftAlone(c, m, p) then None
            else if CopyDecides(c, read.content, m, p) then At(read.content.body, p)
            else At(m.body, p)
  {
    SentBody(c, owner, read, m);
    LiveDecidesExactlyWhen(c, read.content, m, p);
    assert LeftAlone(c, m, p) <==> Dropped(c, m.body, p);
    hide Sent, LiveDecides, Dropped, CopyDecides, LeftAlone;
    if ActiveStrategy(c, read.content).Some? {
      hide ActiveStrategy;
    }
  }

  /**
   * Every field of the object a request stores, from the manifest, the copy it
   * was merged with and the object it met: the manifest wins, but for what the
   * copy decides and what is left alone, and nothing else is touched.
   */
  lemma SendStores(c: Config, owner: Option<Owner>, s: Server, read: Option<Object>, m: Manifest)
    requires ValidServer(s) && (read.Some? ==> read.value.content.key == m.key)
    requires !CreateOnly(c, m) && Sending(c, owner, s, read, m).outcome.Ok?
    ensures m.key in Sending(c, owner, s, read, m).server.objects
    ensures var after := Sending(c, owner, s, read, m).server.objects[m.key].content;
            var met := if m.key in s.objects then s.objects[m.key].content
                       else Manifest(m.key, map[], map[], map[], map[]);
            && after.labels == met.labels + m.labels && after.annotations == met.annotations + m.annotations
            && after.owners == met.owners
               + (if PassesOwners(c, owner, m.key.gvk) then m.owners else map[owner.value.uid := RefTo(owner.value)])
            && forall p ::
                 At(after.body, p) ==
                 if read.Some? && LeftAlone(c, m, p) then At(met.body, p)
                 else
                   var wanted := if read.Some? && CopyDecides(c, read.value.content, m, p) then read.value.content.body
                                 else m.body;
                   if p in wanted then Some(wanted[p]) else At(met.body, p)
  {
    var sent := Sent(c, owner, read, m);
    SentKey(c, owner, read, m);
    if read.Some? {
      SentBody(c, owner, read.value, m);
      forall p { SentAt(c, owner, read.value, m, p); }
    }
    StoredAt(s, sent);
    hide Applied, LeftAlone, CopyDecides, ActiveStrategy, OwnerAllowed;
    if read.Some? {
      hide Sent;
    }
  }

  lemma StoredAt(s: Server, sent: Manifest)
    requires ValidServer(s)
    ensures sent.key in Applied(s, sent).objects
    ensures var after := Applied(s, sent).objects[sent.key].content;
            var met := if sent.key in s.objects then s.objects[sent.key].content
                       else Manifest(sent.key, map[], map[], map[], map[]);
            && after.labels == met.labels + sent.labels && after.annotations == met.annotations + sent.annotations
            && after.owners == met.owners + sent.owners
            && forall p :: At(after.body, p) == if p in sent.body then Some(sent.body[p]) else At(met.body, p)
  {
    AppliedContent(s, sent);
    hide Applied, ValidServer;
    if sent.key !in s.objects {
      assert map[] + sent.labels == sent.labels && map[] + sent.annotations == sent.annotations;
      assert map[] + sent.owners == sent.owners;
    }
  }

  /**
   * The merge of a deployment nobody disturbs, for an object that does not say
   * `managed=true`. The live object keeps its replicas, its resources of every
   * container it shares with the manifest, or the resources of a monitoring
   * resource; every other field of the manifest holds.
   */
  lemma LiveTuningIsPreserved(c: Config, owner: Option<Owner>, s: Server, m: Manifest, p: Path)
    requires ValidServer(s) && m.key in s.objects && Uncached(c, owner, s, m).outcome.Ok? && !CreateOnly(c, m)
    requires m.key.gvk in c.mergeStrategies
    requires Lookup(s.objects[m.key].content.annotations, c.managedKey) != "true"
    ensures m.key in Uncached(c, owner, s, m).server.objects
    ensures var live := s.objects[m.key].content.body;
            var after := Uncached(c, owner, s, m).server.objects[m.key].content.body;
            var tuned := match c.mergeStrategies[m.key.gvk]
                         case MergeDeployments => p == ["spec", "replicas"] || SharedResources(live, m.body, p)
                         case MergeObservability => ["spec", "resources"] <= p && Under(live, ["spec", "resources"]);
            && (tuned ==> At(after, p) == At(live, p))
            && (!tuned && !LeftAlone(c, m, p) ==> At(after, p) == if p in m.body then Some(m.body[p]) else At(live, p))
            && (LeftAlone(c, m, p) ==> At(after, p) == At(live, p))
  {
    UncachedStoresAt(c, owner, s, m, p);
    hide Uncached, SharedResources, Under, LeftAlone;
  }

  /** Without a strategy, or over a live object that says `managed=true`, every field of the manifest holds. */
  lemma ManifestWins(c: Config, owner: Option<Owner>, s: Server, m: Manifest, p: Path)
    requires ValidServer(s) && m.key in s.objects && Uncached(c, owner, s, m).outcome.Ok? && !CreateOnly(c, m)
    requires || m.key.gvk !in c.mergeStrategies
             || Lookup(s.objects[m.key].content.annotations, c.managedKey) == "true"
    ensures m.key in Uncached(c, owner, s, m).server.objects
    ensures var live := s.objects[m.key].content.body;
            var after := Uncached(c, owner, s, m).server.objects[m.key].content.body;
            At(after, p) == if p in m.body && !LeftAlone(c, m, p) then Some(m.body[p]) else At(live, p)
  {
    UncachedStoresAt(c, owner, s, m, p);
    hide Uncached, LeftAlone;
  }

  lemma UncachedStoresAt(c: Config, owner: Option<Owner>, s: Server, m: Manifest, p: Path)
    requires ValidServer(s) && m.key in s.objects && Uncached(c, owner, s, m).outcome.Ok? && !CreateOnly(c, m)
    ensures m.key in Uncached(c, owner, s, m).server.objects
    ensures var live, after := s.objects[m.key].content, Uncached(c, owner, s, m).server.objects[m.key].content;
            At(after.body, p) ==
            if LeftAlone(c, m, p) then At(live.body, p)
            else
              var wanted := if CopyDecides(c, live, m, p) then live.body else m.body;
              if p in wanted then Some(wanted[p]) else At(live.body, p)
  {
    var t := Prepared(c, owner, s, m.key);
    LegacyRemovedTouches(c, s, m.key);
    var read := t.objects[m.key];
    assert read.content.body == s.objects[m.key].content.body;
    assert read.content.annotations == s.objects[m.key].content.annotations && read.content.key == m.key;
    UncachedApplies(c, owner, s, m);
    var sent := Sent(c, owner, Some(read), m);
    SentKey(c, owner, Some(read), m);
    SentAt(c, owner, read, m, p);
    StoredAt(t, sent);
    hide Sent, Applied, LegacyRemoved, OwnerAllowed, PassesOwners, Uncached, Prepared, LeftAlone, CopyDecides;
  }

  lemma UncachedApplies(c: Config, owner: Option<Owner>, s: Server, m: Manifest)
    requires ValidServer(s) && Uncached(c, owner, s, m).outcome.Ok? && !CreateOnly(c, m)
    ensures var t := Prepared(c, owner, s, m.key);
            Uncached(c, owner, s, m).server == Applied(t, Sent(c, owner, Get(t, m.key), m))
  {
    hide Sent, Applied, LegacyRemoved, OwnerAllowed;
  }

  /**
   * The other wrong skip: where owner references of the manifest are applied,
   * a changed reference does not change the fingerprint.
   */
  lemma OwnerChangeIsHidden(c: Config, owner: Option<Owner>, w: World, m: Manifest, owners: map<string, OwnerRef>)
    requires Coherent(c, owner, w) && w.cache.Some? && Decide(c, w, m).Deploys?
    requires !CreateOnly(c, m) && PassesOwners(c, owner, m.key.gvk) && !c.mode.OtherMode?
    requires m.key in DeployedOne(c, owner, w, m).world.server.objects
    requires var live := DeployedOne(c, owner, w, m).world.server.objects[m.key].content;
             Lookup(live.annotations, c.managedKey) != "false"
    requires !Submap(owners, DeployedOne(c, owner, w, m).world.server.objects[m.key].content.owners)
    ensures var w', m' := DeployedOne(c, owner, w, m).world, m.(owners := owners);
            Decide(c, w', m').CacheHit? && Uncached(c, owner, w'.server, m').server != w'.server
  {
    var w', m' := DeployedOne(c, owner, w, m).world, m.(owners := owners);
    NextIsHit(c, owner, w, m);
    assert Fingerprint(m') == Fingerprint(m);
    hide Uncached, Reflects, DeployedOne;
    SkipRightExactlyWhen(c, owner, w'.server, m');
  }

  // ----- races -----

  /** A deployment of an existing object whose only disturbance is one write just before the request. */
  lemma RacedDeployment(c: Config, owner: Option<Owner>, w: World, m: Manifest, edited: Manifest)
    requires Coherent(c, owner, w) && w.cache.Some? && Decide(c, w, m).Deploys? && m.key in w.server.objects
    requires !CreateOnly(c, m) && !c.mode.OtherMode? && edited.key == m.key
    requires PassesOwners(c, owner, m.key.gvk) || OwnerAllowed(owner.value, m.key)
    requires var live := w.server.objects[m.key].content;
             !PassesOwners(c, owner, m.key.gvk) ==> NonLegacy(c, live.owners) == live.owners
    requires Lookup(edited.annotations, c.managedKey) != "false" && c.managedKey !in m.annotations
    ensures var w' := DeployedAmid(c, owner, w, m, Between([], [Write(edited, false)], SERVED)).world;
            && ValidServer(w'.server) && m.key in w'.server.objects && Decide(c, w', m).CacheHit?
            && w'.server.objects[m.key].content == Overlay(edited, Sent(c, owner, Some(w.server.objects[m.key]), m))
            && Reflects(c, owner, w'.server.objects[m.key].content, Fingerprint(m))
  {
    hide NonLegacy, Reflects, OwnerAllowed, Attempted, DeployedAmid, Sending, Sent, Overlay;
    RacedStep(c, owner, w, m, edited);
    var read, met := w.server.objects[m.key], Put(w.server, edited, false);
    RacedSend(c, owner, met, read, m);
    SendReflects(c, owner, met, Some(read), m);
  }

  /** A forced apply over an object the copy does not show. */
  lemma RacedSend(c: Config, owner: Option<Owner>, met: Server, read: Object, m: Manifest)
    requires ValidServer(met) && m.key in met.objects && read.content.key == m.key
    requires !CreateOnly(c, m) && !c.mode.OtherMode?
    requires PassesOwners(c, owner, m.key.gvk) || OwnerAllowed(owner.value, m.key)
    ensures var d := Sending(c, owner, met, Some(read), m);
            && m.key in d.server.objects && d.outcome == Ok(d.server.objects[m.key].resourceVersion)
            && d.outcome.value != NO_VERSION
            && d.server.objects[m.key].terminating == met.objects[m.key].terminating
            && d.server.objects[m.key].content == Overlay(met.objects[m.key].content, Sent(c, owner, Some(read), m))
            && (c.managedKey !in m.annotations ==>
                  Lookup(d.server.objects[m.key].content.annotations, c.managedKey)
                  == Lookup(met.objects[m.key].content.annotations, c.managedKey))
  {
    SentKey(c, owner, Some(read), m);
    SentBody(c, owner, read, m);
    hide Sent, OwnerAllowed;
    var sent := Sent(c, owner, Some(read), m);
    AppliedTouches(met, sent);
    AppliedContent(met, sent);
    hide Applied;
  }

  lemma RacedStep(c: Config, owner: Option<Owner>, w: World, m: Manifest, edited: Manifest)
    requires Decide(c, w, m).Deploys? && m.key in w.server.objects
    requires !PassesOwners(c, owner, m.key.gvk) ==>
               NonLegacy(c, w.server.objects[m.key].content.owners) == w.server.objects[m.key].content.owners
    requires w.server.objects[m.key].content.key == m.key
    ensures DeployedAmid(c, owner, w, m, Between([], [Write(edited, false)], SERVED)).world ==
            Next(c, owner, w.(server := Put(w.server, edited, false)), Send(m, Some(w.server.objects[m.key])))
  {
    hide Sending, NonLegacy;
    var acts := [Write(edited, false)];
    assert acts[1..] == [] && Suffered(w.server, acts) == Put(w.server, edited, false);
  }

  /**
   * A plain manifest is not enough: someone says `managed=true` between the
   * read and the request. The request still carries the replicas merged from
   * the copy, the next deployment would send the manifest's, and the cache
   * hides it.
   */
  lemma RaceHidesWrite(c: Config, owner: Option<Owner>, w: World, m: Manifest)
    requires Coherent(c, owner, w) && w.cache.Some? && Decide(c, w, m).Deploys? && m.key in w.server.objects
    requires !CreateOnly(c, m) && !c.mode.OtherMode? && c.managedKey !in m.annotations
    requires PassesOwners(c, owner, m.key.gvk) || OwnerAllowed(owner.value, m.key)
    requires var live := w.server.objects[m.key].content;
             && (!PassesOwners(c, owner, m.key.gvk) ==> NonLegacy(c, live.owners) == live.owners)
             && Lookup(live.annotations, c.managedKey) != "true"
             && REPLICAS in m.body && REPLICAS in live.body && m.body[REPLICAS] != live.body[REPLICAS]
    requires m.key.gvk in c.mergeStrategies && c.mergeStrategies[m.key.gvk] == MergeDeployments
    ensures var live := w.server.objects[m.key].content;
            var flip := Write(live.(annotations := live.annotations[c.managedKey := "true"]), false);
            var w' := DeployedAmid(c, owner, w, m, Between([], [flip], SERVED)).world;
            Decide(c, w', m).CacheHit? && Uncached(c, owner, w'.server, m).server != w'.server
  {
    var read := w.server.objects[m.key];
    var edited := read.content.(annotations := read.content.annotations[c.managedKey := "true"]);
    TrueIsNotFalse();
    NotDropped(c, m.body, REPLICAS);
    SentBody(c, owner, read, m);
    hide Sent, Uncached, Reflects, Decide, NonLegacy, Dropped, DeployedAmid, OwnerAllowed;
    RacedDeployment(c, owner, w, m, edited);
    var w' := DeployedAmid(c, owner, w, m, Between([], [Write(edited, false)], SERVED)).world;
    var after := w'.server.objects[m.key].content;
    assert Sent(c, owner, Some(read), m).body[REPLICAS] == read.content.body[REPLICAS];
    assert !Holds(after, m, REPLICAS) && after.annotations[c.managedKey] == "true";
    SkipRightExactlyWhen(c, owner, w'.server, m);
  }

  /** The same with a legacy owner added in the meantime: the next deployment would drop it. */
  lemma RaceHidesLegacyOwner(c: Config, owner: Option<Owner>, w: World, m: Manifest, ref: OwnerRef)
    requires Coherent(c, owner, w) && w.cache.Some? && Decide(c, w, m).Deploys? && m.key in w.server.objects
    requires !CreateOnly(c, m) && !c.mode.OtherMode? && c.managedKey !in m.annotations
    requires !PassesOwners(c, owner, m.key.gvk) && OwnerAllowed(owner.value, m.key)
    requires var live := w.server.objects[m.key].content; NonLegacy(c, live.owners) == live.owners
    requires IsLegacy(c, ref) && ref.uid != owner.value.uid
    ensures var live := w.server.objects[m.key].content;
            var w' := DeployedAmid(c, owner, w, m,
                Between([], [Write(live.(owners := live.owners[ref.uid := ref]), false)], SERVED)).world;
            Decide(c, w', m).CacheHit? && Uncached(c, owner, w'.server, m).server != w'.server
  {
    var read := w.server.objects[m.key];
    var edited := read.content.(owners := read.content.owners[ref.uid := ref]);
    SentBody(c, owner, read, m);
    hide Sent, Uncached, Reflects, Dropped, DeployedAmid, OwnerAllowed, IsLegacy;
    RacedDeployment(c, owner, w, m, edited);
    var w' := DeployedAmid(c, owner, w, m, Between([], [Write(edited, false)], SERVED)).world;
    var after := w'.server.objects[m.key].content;
    assert ref.uid in after.owners && after.owners[ref.uid] == ref;
    assert ref.uid !in NonLegacy(c, after.owners);
    SkipRightExactlyWhen(c, owner, w'.server, m);
  }

  // ----- a hit on a stale copy -----

  /** The decision on a copy that need not be the live object any more. */
  predicate HitOn(c: Config, cache: Option<set<CacheKey>>, read: Object, m: Manifest) {
    && Lookup(read.content.annotations, c.managedKey) != "false" && !read.terminating
    && cache.Some? && CacheKey(m.key, read.resourceVersion, Fingerprint(m)) in cache.value
  }

  /** A copy once read: its version stands for its content, also in what the cache says of it. */
  ghost predicate CopyHolds(c: Config, owner: Option<Owner>, w: World, k: Key, read: Object) {
    && 1 <= read.resourceVersion <= w.server.lastVersion
    && (k in w.server.objects ==>
          w.server.objects[k] == read || read.resourceVersion < w.server.objects[k].resourceVersion)
    && (w.cache.Some? ==>
          forall e | e in w.cache.value && e.key == k && e.resourceVersion == read.resourceVersion ::
            Reflects(c, owner, read.content, e.fingerprint))
  }

  lemma TouchKeepsCopy(c: Config, owner: Option<Owner>, w: World, t: Server, touched: Key, k: Key, read: Object)
    requires CopyHolds(c, owner, w, k, read) && ValidServer(w.server) && Touches(w.server, t, touched)
    ensures CopyHolds(c, owner, w.(server := t), k, read)
  {
    hide Reflects;
  }

  lemma StepKeepsCopy(c: Config, owner: Option<Owner>, w: World, e: Event, k: Key, read: Object)
    requires Coherent(c, owner, w) && CopyHolds(c, owner, w, k, read)
    ensures CopyHolds(c, owner, Next(c, owner, w, e), k, read)
  {
    hide Reflects, Sending;
    match e
    case Foreign(act) =>
      ActTouches(w.server, act);
      TouchKeepsCopy(c, owner, w, Acted(w.server, act), KeyOf(act), k, read);
    case Expire(_) =>
    case Send(m, copy) =>
      if copy.Some? ==> copy.value.content.key == m.key {
        SendReflects(c, owner, w.server, copy, m);
        TouchKeepsCopy(c, owner, w, Sending(c, owner, w.server, copy, m).server, m.key, k, read);
      }
  }

  lemma {:induction false} ReachedKeepsCopy(
      c: Config, owner: Option<Owner>, w: World, es: seq<Event>, k: Key, read: Object)
    requires Coherent(c, owner, w) && CopyHolds(c, owner, w, k, read)
    ensures CopyHolds(c, owner, Reached(c, owner, w, es), k, read)
    decreases |es|
  {
    if es != [] {
      hide CopyHolds, Coherent, Next;
      StepKeepsCopy(c, owner, w, es[0], k, read);
      StepKeepsCoherent(c, owner, w, es[0]);
      ReachedKeepsCopy(c, owner, Next(c, owner, w, es[0]), es[1..], k, read);
    }
  }

  /** The live object still has all that the deployer would send on the strength of the copy. */
  ghost predicate StillCarries(c: Config, owner: Option<Owner>, s: Server, read: Object, m: Manifest) {
    && m.key in s.objects
    && var live, sent := s.objects[m.key].content, Sent(c, owner, Some(read), m);
       && Submap(sent.labels, live.labels) && Submap(sent.annotations, live.annotations)
       && Submap(sent.owners, live.owners) && Submap(sent.body, live.body)
  }

  /** A hit at `now` on a copy that was live at `first`. */
  ghost predicate StaleHit(c: Config, owner: Option<Owner>, first: World, now: World, read: Object, m: Manifest) {
    && Coherent(c, owner, first) && ValidServer(now.server)
    && m.key in first.server.objects && first.server.objects[m.key] == read
    && CopyHolds(c, owner, now, m.key, read) && HitOn(c, now.cache, read, m)
  }

  /**
   * A hit on a copy read earlier, after whatever has happened since. It is right
   * for the version read exactly when the guard holds of the copy. Then, now,
   * the skip hides a write exactly when the live object no longer carries what
   * the deployer would send: so only if it is gone or has moved on.
   */
  lemma StaleHitHidesWriteExactlyWhen(
      c: Config, owner: Option<Owner>, w0: World, es: seq<Event>, since: seq<Event>, m: Manifest)
    requires Coherent(c, owner, w0) && Named(m.body) && !CreateOnly(c, m)
    requires var w := Reached(c, owner, w0, es);
             m.key in w.server.objects && HitOn(c, Reached(c, owner, w, since).cache, w.server.objects[m.key], m)
    ensures var w := Reached(c, owner, w0, es);
            var read, s := w.server.objects[m.key], Reached(c, owner, w, since).server;
            && (Uncached(c, owner, w.server, m).server == w.server <==> SkipGuard(c, owner, read.content, m))
            && (SkipGuard(c, owner, read.content, m) ==>
                  && (Attempted(c, owner, s, Some(read), m, NOBODY).server == s <==> StillCarries(c, owner, s, read, m))
                  && (!StillCarries(c, owner, s, read, m) && m.key in s.objects ==>
                        read.resourceVersion < s.objects[m.key].resourceVersion))
  {
    hide Coherent, CopyHolds, HitOn, Uncached, SkipGuard, Attempted, StillCarries, Reflects, Named, CreateOnly;
    var w := Reached(c, owner, w0, es);
    var read, now := w.server.objects[m.key], Reached(c, owner, w, since);
    ReachedCoherent(c, owner, w0, es);
    CopyAtFirst(c, owner, w, m.key);
    ReachedKeepsCopy(c, owner, w, since, m.key, read);
    ReachedCoherent(c, owner, w, since);
    CoherentIsValid(c, owner, now);
    StaleHitFacts(c, owner, w, now, read, m);
  }

  lemma CoherentIsValid(c: Config, owner: Option<Owner>, w: World)
    requires Coherent(c, owner, w)
    ensures ValidServer(w.server)
  {
  }

  lemma StaleHitFacts(c: Config, owner: Option<Owner>, first: World, now: World, read: Object, m: Manifest)
    requires StaleHit(c, owner, first, now, read, m) && Named(m.body) && !CreateOnly(c, m)
    ensures Uncached(c, owner, first.server, m).server == first.server <==> SkipGuard(c, owner, read.content, m)
    ensures SkipGuard(c, owner, read.content, m) ==>
              && (Attempted(c, owner, now.server, Some(read), m, NOBODY).server == now.server <==>
                  StillCarries(c, owner, now.server, read, m))
              && (!StillCarries(c, owner, now.server, read, m) && m.key in now.server.objects ==>
                    read.resourceVersion < now.server.objects[m.key].resourceVersion)
  {
    CoherentIsValid(c, owner, first);
    CopyReflects(c, owner, now, read, m);
    hide Coherent, Uncached, Reflects, SkipGuard, Attempted, StillCarries, Named;
    SkipRightExactlyWhen(c, owner, first.server, m);
    if SkipGuard(c, owner, read.content, m) {
      StaleRequest(c, owner, now.server, read, m);
      CarriedWhenRead(c, owner, first.server, m);
      NotMovedOn(c, owner, first, now, read, m);
    }
  }

  lemma CopyAtFirst(c: Config, owner: Option<Owner>, w: World, k: Key)
    requires Coherent(c, owner, w) && k in w.server.objects
    ensures CopyHolds(c, owner, w, k, w.server.objects[k])
  {
    hide Reflects;
    if w.cache.Some? {
      forall e | e in w.cache.value && e.key == k && e.resourceVersion == w.server.objects[k].resourceVersion
        ensures Reflects(c, owner, w.server.objects[k].content, e.fingerprint)
      {
        assert EntryHolds(c, owner, w.server, e);
      }
    }
  }

  lemma CopyReflects(c: Config, owner: Option<Owner>, w: World, read: Object, m: Manifest)
    requires CopyHolds(c, owner, w, m.key, read) && HitOn(c, w.cache, read, m)
    ensures Reflects(c, owner, read.content, Fingerprint(m))
  {
    hide Reflects;
    assert CacheKey(m.key, read.resourceVersion, Fingerprint(m)) in w.cache.value;
  }

  /** What a deployment that works on the copy does to the server of today. */
  lemma StaleRequest(c: Config, owner: Option<Owner>, s: Server, read: Object, m: Manifest)
    requires ValidServer(s) && !CreateOnly(c, m)
    requires Reflects(c, owner, read.content, Fingerprint(m)) && SkipGuard(c, owner, read.content, m)
    ensures Attempted(c, owner, s, Some(read), m, NOBODY).server == s <==> StillCarries(c, owner, s, read, m)
  {
    hide Sent, Named, MergeControls, Holds, NonLegacy;
    var sent := Sent(c, owner, Some(read), m);
    SentKey(c, owner, Some(read), m);
    assert Attempted(c, owner, s, Some(read), m, NOBODY).server == Applied(s, sent);
    if m.key in s.objects {
      OverlayUnchanged(s.objects[m.key].content, sent);
    }
  }

  lemma CarriedWhenRead(c: Config, owner: Option<Owner>, s: Server, m: Manifest)
    requires ValidServer(s) && m.key in s.objects && !CreateOnly(c, m) && Named(m.body)
    requires Reflects(c, owner, s.objects[m.key].content, Fingerprint(m))
    requires SkipGuard(c, owner, s.objects[m.key].content, m)
    ensures StillCarries(c, owner, s, s.objects[m.key], m)
  {
    hide StillCarries, Reflects, SkipGuard;
    SkipRightExactlyWhen(c, owner, s, m);
    UndisturbedIsUncached(c, owner, s, m);
    StaleRequest(c, owner, s, s.objects[m.key], m);
  }

  lemma NotMovedOn(c: Config, owner: Option<Owner>, w: World, now: World, read: Object, m: Manifest)
    requires m.key in w.server.objects && w.server.objects[m.key] == read && StillCarries(c, owner, w.server, read, m)
    requires CopyHolds(c, owner, now, m.key, read)
    ensures !StillCarries(c, owner, now.server, read, m) && m.key in now.server.objects ==>
              read.resourceVersion < now.server.objects[m.key].resourceVersion
  {
    hide Sent, Reflects;
  }
}
