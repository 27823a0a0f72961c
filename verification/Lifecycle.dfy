/**
 * Deploy, then collect: what one reconcile cycle does to the rendered
 * resources and to everything else the collector lists.
 */
module Lifecycle {
  import opened Options
  import opened Cluster
  import opened DeploySpec
  import opened DeployCache
  import opened DeployRun
  import opened CollectionSpec
  import opened CollectionLaws
  import opened GarbageCollector
  import Decimal

  /** The stamps of the current generation and release. */
  predicate FreshlyStamped(owner: Owner, i: Input, m: Manifest) {
    && Lookup(m.annotations, INSTANCE_GENERATION) == Decimal.FormatInt(i.generation)
    && Lookup(m.annotations, INSTANCE_UID) == owner.uid
    && Lookup(m.annotations, PLATFORM_TYPE) == i.release.kind
    && Lookup(m.annotations, PLATFORM_VERSION) == i.release.version
  }

  /** Input the protocol is meant for: an owner with a uid, a release, an int64 generation. */
  predicate Proper(i: Input) {
    && i.owner.Some? && i.owner.value.uid != ""
    && i.release.kind != "" && i.release.version != ""
    && Decimal.IsInt64(i.generation)
  }

  /** The collector runs for the owner and release that were deployed. */
  predicate SameRun(i: Input, p: RunParams) {
    && i.owner == Some(p.owner) && i.generation == p.generation
    && i.release == Release(p.platformType, p.version)
  }

  const STAMPS := {INSTANCE_GENERATION, INSTANCE_UID, PLATFORM_TYPE, PLATFORM_VERSION}

  lemma StampKeysDiffer()
    ensures INSTANCE_GENERATION != INSTANCE_NAME && INSTANCE_GENERATION != INSTANCE_UID
    ensures INSTANCE_GENERATION != PLATFORM_TYPE && INSTANCE_GENERATION != PLATFORM_VERSION
    ensures INSTANCE_UID != INSTANCE_NAME && INSTANCE_UID != PLATFORM_TYPE && INSTANCE_UID != PLATFORM_VERSION
    ensures PLATFORM_TYPE != PLATFORM_VERSION
    ensures MANAGED !in STAMPS
  {
    assert |INSTANCE_GENERATION| == 43 && |INSTANCE_NAME| == 37 && |INSTANCE_UID| == 36;
    assert |PLATFORM_TYPE| == 28 && |PLATFORM_VERSION| == 31 && |MANAGED| == 22;
  }

  lemma StampedIsFresh(c: Config, i: Input, m: Manifest)
    requires Proper(i) && m.key.gvk != CRD
    ensures FreshlyStamped(i.owner.value, i, Stamped(c, i, m))
  {
    StampKeysDiffer();
  }

  /**
   * Whether the collector's default selector will ever see a resource deployed
   * for the same owner: its own part-of label, or else the deployer's field
   * owner, must be the owner's kind. A field owner of another name puts every
   * resource without a label of its own out of reach, however stale.
   */
  lemma StampedIsInReachExactlyWhen(c: Config, i: Input, g: GcConfig, p: RunParams, m: Manifest)
    requires SameRun(i, p) && g.labels == map[] && m.key.gvk != CRD && p.owner.gvk.kind != ""
    ensures var part, kind := Lookup(m.labels + c.labels, PART_OF), ToLower(p.owner.gvk.kind);
            Matches(g, p, Stamped(c, i, m).labels) <==>
            part == kind || (part == "" && (c.fieldOwner == "" || c.fieldOwner == kind))
  {
    var kind := ToLower(p.owner.gvk.kind);
    assert |kind| > 0;
    StampingLabels(c, i, m);
  }

  lemma StampingLabels(c: Config, i: Input, m: Manifest)
    requires m.key.gvk != CRD
    ensures var labels := m.labels + c.labels;
            Stamped(c, i, m).labels ==
            if Lookup(labels, PART_OF) == "" && ControllerName(c, i) != "" then labels[PART_OF := ControllerName(c, i)]
            else labels
  {
    hide ControllerName, Lookup, StampAnnotations;
  }

  // ----- what a deployment leaves on the cluster -----

  /** An object the collector must spare: going already, a CRD, opted out, or freshly stamped. */
  predicate Safe(c: Config, i: Input, o: Object)
    requires i.owner.Some?
  {
    || o.terminating
    || o.content.key.gvk == CRD
    || Lookup(o.content.annotations, c.managedKey) == "false"
    || FreshlyStamped(i.owner.value, i, o.content)
  }

  function KeysOf(ms: seq<Manifest>): set<Key> {
    set m | m in ms :: m.key
  }

  predicate Spared(c: Config, i: Input, s: Server, k: Key)
    requires i.owner.Some?
  {
    k in s.objects ==> Safe(c, i, s.objects[k])
  }

  lemma SubmapKeepsStamps(owner: Owner, i: Input, m: Manifest, n: Manifest)
    requires FreshlyStamped(owner, i, m) && Submap(m.annotations, n.annotations) && Proper(i) && i.owner == Some(owner)
    ensures FreshlyStamped(owner, i, n)
  {
    Decimal.AtoiOfFormatInt(i.generation);
  }

  lemma ReflectsAnnotations(c: Config, owner: Option<Owner>, live: Manifest, m: Manifest)
    requires Reflects(c, owner, live, Fingerprint(m)) && !CreateOnly(c, m)
    ensures live.key == m.key && Submap(m.annotations, live.annotations)
  {
  }

  /** An object that reflects what was stamped is safe. */
  lemma ReflectingIsSafe(c: Config, i: Input, o: Object, res: Manifest)
    requires Proper(i) && !CreateOnly(c, Stamped(c, i, res))
    requires Reflects(c, i.owner, o.content, Fingerprint(Stamped(c, i, res)))
    ensures Safe(c, i, o) && o.content.key == res.key
  {
    var m := Stamped(c, i, res);
    StampingKeepsKey(c, i, res);
    ReflectsAnnotations(c, i.owner, o.content, m);
    if res.key.gvk != CRD {
      StampedIsFresh(c, i, res);
      hide Stamped, FreshlyStamped, Reflects;
      SubmapKeepsStamps(i.owner.value, i, m, o.content);
    }
  }

  lemma SendRecords(c: Config, owner: Option<Owner>, s: Server, read: Option<Object>, m: Manifest)
    requires ValidServer(s) && !CreateOnly(c, m) && Sending(c, owner, s, read, m).outcome.Ok?
    requires read.Some? ==> read.value.content.key == m.key
    ensures Sending(c, owner, s, read, m).outcome.value != NO_VERSION
  {
    hide Sent, Applied, OwnerAllowed;
    SentKey(c, owner, read, m);
    AppliedTouches(s, Sent(c, owner, read, m));
  }

  /** What the last request of a deployment meets, if it comes to one. */
  lemma AttemptSends(c: Config, owner: Option<Owner>, s: Server, read: Option<Object>, m: Manifest, b: Between)
    requires ValidServer(s) && (read.Some? ==> read.value.content.key == m.key)
    requires Attempted(c, owner, s, read, m, b).outcome.Ok?
    ensures var d := Disowned(c, owner, Suffered(s, b.beforeUpdate), read, m);
            && d.Ok? && ValidServer(d.value.server) && ValidServer(Suffered(d.value.server, b.beforeSend))
            && Touches(Suffered(s, b.beforeUpdate), d.value.server, m.key)
            && (d.value.read.Some? ==> d.value.read.value.content.key == m.key)
            && Attempted(c, owner, s, read, m, b)
            == Sending(c, owner, Suffered(d.value.server, b.beforeSend), d.value.read, m)
  {
    hide Sending, Suffered, NonLegacy;
    SufferedValid(s, b.beforeUpdate);
    var d := Disowned(c, owner, Suffered(s, b.beforeUpdate), read, m);
    SufferedValid(d.value.server, b.beforeSend);
  }

  /**
   * Whichever way `deployOne` goes, and whatever others do meanwhile, the object
   * of a manifest that is not create-only is safe afterwards.
   */
  lemma DeployMakesSafe(c: Config, i: Input, w: World, res: Manifest, b: Between)
    requires Proper(i) && Coherent(c, i.owner, w) && !CreateOnly(c, Stamped(c, i, res))
    requires DeployedAmid(c, i.owner, w, Stamped(c, i, res), b).outcome.Ok?
    ensures var s := DeployedAmid(c, i.owner, w, Stamped(c, i, res), b).world.server;
            res.key in s.objects && Safe(c, i, s.objects[res.key]) && s.objects[res.key].content.key == res.key
  {
    var m := Stamped(c, i, res);
    StampingKeepsKey(c, i, res);
    hide Stamped, Attempted, Sending, Disowned, FreshlyStamped, Reflects, CreateOnly;
    match Decide(c, w, m)
    case OptedOut =>
    case Terminating =>
    case CacheHit =>
      HitReflects(c, i.owner, w, m);
      ReflectingIsSafe(c, i, w.server.objects[m.key], res);
    case Deploys =>
      var read := Get(w.server, m.key);
      AttemptSends(c, i.owner, w.server, read, m, b);
      var d := Disowned(c, i.owner, Suffered(w.server, b.beforeUpdate), read, m).value;
      var met := Suffered(d.server, b.beforeSend);
      SendReflects(c, i.owner, met, d.read, m);
      SendRecords(c, i.owner, met, d.read, m);
      ReflectingIsSafe(c, i, Sending(c, i.owner, met, d.read, m).server.objects[m.key], res);
  }

  // ----- what others may do between a deployment and the sweep -----

  /** Nobody turns one of these objects from one the collector spares into one that it takes. */
  ghost predicate Harmless(c: Config, i: Input, ks: set<Key>, s: Server, a: Act)
    requires i.owner.Some?
  {
    forall k | k in ks && Spared(c, i, s, k) :: Spared(c, i, Acted(s, a), k)
  }

  ghost predicate AllHarmless(c: Config, i: Input, ks: set<Key>, s: Server, acts: seq<Act>)
    requires i.owner.Some?
    decreases |acts|
  {
    acts == [] || (Harmless(c, i, ks, s, acts[0]) && AllHarmless(c, i, ks, Acted(s, acts[0]), acts[1..]))
  }

  /** The annotations the collector and the deployer go by. */
  predicate SameMarks(c: Config, m: Manifest, n: Manifest) {
    forall a | a in STAMPS + {c.managedKey} ::
      Lookup(m.annotations, a) == Lookup(n.annotations, a)
  }

  /**
   * Anything done to other objects is harmless, and so is deleting, removing,
   * and editing anything but those annotations.
   */
  lemma EditsAreHarmless(c: Config, i: Input, ks: set<Key>, s: Server, a: Act)
    requires i.owner.Some? && ValidServer(s)
    requires a.Write? && a.content.key in ks ==>
               && a.content.key in s.objects
               && SameMarks(c, s.objects[a.content.key].content, a.content)
               && (s.objects[a.content.key].terminating ==> a.terminating)
    ensures Harmless(c, i, ks, s, a)
  {
    forall k | k in ks && Spared(c, i, s, k) ensures Spared(c, i, Acted(s, a), k) {
      if a.Write? && k == a.content.key {
        assert Lookup(s.objects[k].content.annotations, c.managedKey) == Lookup(a.content.annotations, c.managedKey);
      }
    }
  }

  lemma {:induction false} HarmlessKeepsSpared(c: Config, i: Input, ks: set<Key>, s: Server, acts: seq<Act>, k: Key)
    requires i.owner.Some? && AllHarmless(c, i, ks, s, acts) && k in ks && Spared(c, i, s, k)
    ensures Spared(c, i, Suffered(s, acts), k)
    decreases |acts|
  {
    if acts != [] {
      HarmlessKeepsSpared(c, i, ks, Acted(s, acts[0]), acts[1..], k);
    }
  }

  /** The acts around one resource are harmless where they happen. */
  ghost predicate HarmlessTurn(c: Config, i: Input, ks: set<Key>, w: World, m: Manifest, t: Turn)
    requires i.owner.Some?
  {
    var met := Before(w, t);
    && AllHarmless(c, i, ks, w.server, t.before)
    && (Decide(c, met, m).Deploys? ==>
          && AllHarmless(c, i, ks, met.server, t.between.beforeUpdate)
          && var before := Suffered(met.server, t.between.beforeUpdate);
             var d := Disowned(c, i.owner, before, Get(met.server, m.key), m);
             (d.Ok? ==> AllHarmless(c, i, ks, d.value.server, t.between.beforeSend)))
  }

  ghost predicate HarmlessTurns(c: Config, i: Input, ks: set<Key>, w: World, ms: seq<Manifest>, turns: seq<Turn>)
    requires i.owner.Some? && |turns| == |ms|
    decreases |ms|
  {
    ms == [] ||
    (&& HarmlessTurn(c, i, ks, w, Stamped(c, i, ms[0]), turns[0])
     && var step := DeployedAmid(c, i.owner, Before(w, turns[0]), Stamped(c, i, ms[0]), turns[0].between);
        HarmlessTurns(c, i, ks, step.world, ms[1..], turns[1..]))
  }

  /** What a proper input stamps on anything but a CRD. */
  function StampValue(i: Input, a: string): string
    requires i.owner.Some?
  {
    if a == INSTANCE_GENERATION then Decimal.FormatInt(i.generation)
    else if a == INSTANCE_UID then i.owner.value.uid
    else if a == PLATFORM_TYPE then i.release.kind
    else i.release.version
  }

  lemma StampsAreSet(c: Config, i: Input, m: Manifest, a: string)
    requires Proper(i) && a in STAMPS && m.key.gvk != CRD
    ensures Lookup(Stamped(c, i, m).annotations, a) == StampValue(i, a)
  {
    StampedIsFresh(c, i, m);
    hide Stamped;
  }

  /** A manifest is create-only by what it says itself, unless the opt-out key is a stamp: then all are or none. */
  lemma CreateOnlyByStamp(c: Config, i: Input, m: Manifest, n: Manifest)
    requires Proper(i) && c.managedKey in STAMPS && m.key.gvk != CRD && n.key.gvk != CRD
    ensures CreateOnly(c, Stamped(c, i, m)) == CreateOnly(c, Stamped(c, i, n))
  {
    StampsAreSet(c, i, m, c.managedKey);
    StampsAreSet(c, i, n, c.managedKey);
    StampingKeepsKey(c, i, m);
    StampingKeepsKey(c, i, n);
    hide Stamped;
  }

  /** What a create-only manifest is created as: without the opt-out, and with the stamps unless it is one. */
  function Created(c: Config, m: Manifest): Manifest {
    m.(annotations := m.annotations - {c.managedKey})
  }

  lemma CreatedIsFresh(c: Config, i: Input, res: Manifest)
    requires Proper(i) && res.key.gvk != CRD && c.managedKey !in STAMPS
    ensures FreshlyStamped(i.owner.value, i, Created(c, Stamped(c, i, res)))
  {
    StampKeysDiffer();
    StampedIsFresh(c, i, res);
    hide Stamped;
  }

  lemma CreateOnlySends(
      c: Config, i: Input, s: Server, read: Option<Object>, res: Manifest, m: Manifest)
    requires Proper(i) && ValidServer(s) && CreateOnly(c, Stamped(c, i, res))
    requires !CreateOnly(c, Stamped(c, i, m)) && Spared(c, i, s, m.key)
    ensures Spared(c, i, Sending(c, i.owner, s, read, Stamped(c, i, res)).server, m.key)
  {
    StampingKeepsKey(c, i, res);
    if res.key == m.key && res.key.gvk != CRD {
      if c.managedKey in STAMPS {
        CreateOnlyByStamp(c, i, res, m);
      } else {
        CreatedIsFresh(c, i, res);
      }
    }
    hide Stamped, FreshlyStamped, Sent, OwnerAllowed;
  }

  /** The requests of a deployment leave the object of another manifest, or of one that is not create-only, spared. */
  lemma RequestsKeepSpared(c: Config, i: Input, ks: set<Key>, met: World, res: Manifest, b: Between, n: Manifest)
    requires Proper(i) && ValidServer(met.server)
    requires var m := Stamped(c, i, res);
             && AllHarmless(c, i, ks, met.server, b.beforeUpdate)
             && var d := Disowned(c, i.owner, Suffered(met.server, b.beforeUpdate), Get(met.server, m.key), m);
                (d.Ok? ==> AllHarmless(c, i, ks, d.value.server, b.beforeSend))
    requires Attempted(c, i.owner, met.server, Get(met.server, res.key), Stamped(c, i, res), b).outcome.Ok?
    requires !CreateOnly(c, Stamped(c, i, n)) && n.key in ks && Spared(c, i, met.server, n.key)
    requires n.key != res.key || CreateOnly(c, Stamped(c, i, res))
    ensures Spared(
              c, i, Attempted(c, i.owner, met.server, Get(met.server, res.key), Stamped(c, i, res), b).server, n.key)
  {
    var m, k := Stamped(c, i, res), n.key;
    StampingKeepsKey(c, i, res);
    hide Stamped, Attempted, Sending, Disowned, Safe, Reflects, CreateOnly, AllHarmless, Suffered, ValidServer;
    var read, before := Get(met.server, m.key), Suffered(met.server, b.beforeUpdate);
    ReadHasKey(met.server, m.key);
    AttemptSends(c, i.owner, met.server, read, m, b);
    var d := Disowned(c, i.owner, before, read, m).value;
    HarmlessKeepsSpared(c, i, ks, met.server, b.beforeUpdate, k);
    if CreateOnly(c, m) {
      DisownedCreateOnly(c, i.owner, before, read, m);
      HarmlessKeepsSpared(c, i, ks, d.server, b.beforeSend, k);
      CreateOnlySends(c, i, Suffered(d.server, b.beforeSend), d.read, res, n);
    } else {
      HarmlessKeepsSpared(c, i, ks, d.server, b.beforeSend, k);
      SendReflects(c, i.owner, Suffered(d.server, b.beforeSend), d.read, m);
    }
  }

  lemma ReadHasKey(s: Server, k: Key)
    requires ValidServer(s)
    ensures Get(s, k).Some? ==> Get(s, k).value.content.key == k
  {
  }

  /** The spared object of a manifest that is not create-only stays spared while anything is deployed. */
  lemma DeployKeepsSpared(c: Config, i: Input, ks: set<Key>, w: World, res: Manifest, t: Turn, n: Manifest)
    requires Proper(i) && Coherent(c, i.owner, w) && HarmlessTurn(c, i, ks, w, Stamped(c, i, res), t)
    requires DeployedAmid(c, i.owner, Before(w, t), Stamped(c, i, res), t.between).outcome.Ok?
    requires !CreateOnly(c, Stamped(c, i, n)) && n.key in ks && Spared(c, i, w.server, n.key)
    ensures Spared(c, i, DeployedAmid(c, i.owner, Before(w, t), Stamped(c, i, res), t.between).world.server, n.key)
  {
    var m, met := Stamped(c, i, res), Before(w, t);
    StampingKeepsKey(c, i, res);
    BeforeKeepsCoherent(c, i.owner, w, t);
    HarmlessKeepsSpared(c, i, ks, w.server, t.before, n.key);
    hide Stamped, Attempted, Sending, Disowned, Safe, Reflects, CreateOnly, AllHarmless, Suffered, Coherent;
    if Decide(c, met, m).Deploys? {
      if n.key == m.key && !CreateOnly(c, m) {
        DeployMakesSafe(c, i, met, res, t.between);
      } else {
        ValidWorld(c, i.owner, met);
        RequestsKeepSpared(c, i, ks, met, res, t.between, n);
      }
    }
  }

  lemma DisownedCreateOnly(c: Config, owner: Option<Owner>, s: Server, read: Option<Object>, m: Manifest)
    requires CreateOnly(c, m)
    ensures Disowned(c, owner, s, read, m) == Ok(Disowning(s, read))
  {
  }

  lemma ValidWorld(c: Config, owner: Option<Owner>, w: World)
    requires Coherent(c, owner, w)
    ensures ValidServer(w.server)
  {
  }

  lemma BeforeKeepsCoherent(c: Config, owner: Option<Owner>, w: World, t: Turn)
    requires Coherent(c, owner, w)
    ensures Coherent(c, owner, Before(w, t))
  {
    hide Reflects;
    var expired := Next(c, owner, w, Expire(t.expired));
    StepKeepsCoherent(c, owner, w, Expire(t.expired));
    SufferedIsHistory(c, owner, expired, t.before);
    ReachedCoherent(c, owner, expired, Foreigns(t.before));
  }

  /** The object of a manifest that is not create-only is spared once it is deployed, or if it was before. */
  lemma DeployOneMakesSpared(c: Config, i: Input, ks: set<Key>, w: World, res: Manifest, t: Turn, n: Manifest)
    requires Proper(i) && Coherent(c, i.owner, w) && HarmlessTurn(c, i, ks, w, Stamped(c, i, res), t)
    requires DeployedAmid(c, i.owner, Before(w, t), Stamped(c, i, res), t.between).outcome.Ok?
    requires !CreateOnly(c, Stamped(c, i, n)) && n.key in ks && (n == res || Spared(c, i, w.server, n.key))
    ensures Spared(c, i, DeployedAmid(c, i.owner, Before(w, t), Stamped(c, i, res), t.between).world.server, n.key)
  {
    hide Stamped, DeployedAmid, Spared, CreateOnly, Coherent, HarmlessTurn, Before;
    if n == res {
      BeforeKeepsCoherent(c, i.owner, w, t);
      DeployMakesSafe(c, i, Before(w, t), res, t.between);
      var step := DeployedAmid(c, i.owner, Before(w, t), Stamped(c, i, res), t.between);
      SafeIsSparedHere(c, i, step.world.server, res.key);
    } else {
      DeployKeepsSpared(c, i, ks, w, res, t, n);
    }
  }

  lemma {:induction false} DeployAllMakesSpared(
      c: Config, i: Input, ks: set<Key>, w: World, ms: seq<Manifest>, turns: seq<Turn>, n: Manifest)
    requires Proper(i) && Coherent(c, i.owner, w) && |turns| == |ms| && HarmlessTurns(c, i, ks, w, ms, turns)
    requires DeployedAll(c, i, w, ms, turns).outcome.Ok?
    requires !CreateOnly(c, Stamped(c, i, n)) && n.key in ks && (n in ms || Spared(c, i, w.server, n.key))
    ensures Spared(c, i, DeployedAll(c, i, w, ms, turns).world.server, n.key)
    decreases |ms|
  {
    if ms != [] {
      hide Stamped, DeployedAmid, Spared, CreateOnly, Coherent, HarmlessTurn, Before;
      var met := Before(w, turns[0]);
      BeforeKeepsCoherent(c, i.owner, w, turns[0]);
      DeployKeepsCoherent(c, i.owner, met, Stamped(c, i, ms[0]), turns[0].between);
      if n == ms[0] || Spared(c, i, w.server, n.key) {
        DeployOneMakesSpared(c, i, ks, w, ms[0], turns[0], n);
      } else {
        assert n in ms[1..];
      }
      var step := DeployedAmid(c, i.owner, met, Stamped(c, i, ms[0]), turns[0].between);
      DeployAllMakesSpared(c, i, ks, step.world, ms[1..], turns[1..], n);
    }
  }

  lemma SafeIsSparedHere(c: Config, i: Input, s: Server, k: Key)
    requires i.owner.Some? && k in s.objects && Safe(c, i, s.objects[k])
    ensures Spared(c, i, s, k)
  {
  }

  lemma {:induction false} DeployAllKeepsCoherent(c: Config, i: Input, w: World, ms: seq<Manifest>, turns: seq<Turn>)
    requires Coherent(c, i.owner, w) && |turns| == |ms|
    ensures Coherent(c, i.owner, DeployedAll(c, i, w, ms, turns).world)
    decreases |ms|
  {
    if ms != [] {
      hide Stamped, DeployedAmid, Coherent, Before;
      var met := Before(w, turns[0]);
      BeforeKeepsCoherent(c, i.owner, w, turns[0]);
      DeployKeepsCoherent(c, i.owner, met, Stamped(c, i, ms[0]), turns[0].between);
      var step := DeployedAmid(c, i.owner, met, Stamped(c, i, ms[0]), turns[0].between);
      if step.outcome.Ok? {
        DeployAllKeepsCoherent(c, i, step.world, ms[1..], turns[1..]);
      }
    }
  }

  // ----- nothing disappears by itself -----

  predicate NoRemoval(acts: seq<Act>) {
    forall a | a in acts :: !a.Remove?
  }

  predicate NoRemovals(turns: seq<Turn>) {
    forall t | t in turns :: NoRemoval(t.before) && NoRemoval(t.between.beforeUpdate) && NoRemoval(t.between.beforeSend)
  }

  lemma {:induction false} SufferedKeepsKeys(s: Server, acts: seq<Act>)
    requires NoRemoval(acts)
    ensures s.objects.Keys <= Suffered(s, acts).objects.Keys
    decreases |acts|
  {
    if acts != [] {
      assert acts[0] in acts && forall a | a in acts[1..] :: a in acts;
      SufferedKeepsKeys(Acted(s, acts[0]), acts[1..]);
    }
  }

  lemma DeployKeepsKeys(c: Config, owner: Option<Owner>, w: World, m: Manifest, b: Between)
    requires NoRemoval(b.beforeUpdate) && NoRemoval(b.beforeSend)
    ensures w.server.objects.Keys <= DeployedAmid(c, owner, w, m, b).world.server.objects.Keys
  {
    hide Suffered, Sent, NonLegacy, OwnerAllowed;
    SufferedKeepsKeys(w.server, b.beforeUpdate);
    var d := Disowned(c, owner, Suffered(w.server, b.beforeUpdate), Get(w.server, m.key), m);
    if d.Ok? {
      SufferedKeepsKeys(d.value.server, b.beforeSend);
    }
  }

  lemma {:induction false} RenderedArePresent(c: Config, i: Input, w: World, ms: seq<Manifest>, turns: seq<Turn>)
    requires Proper(i) && Coherent(c, i.owner, w) && |turns| == |ms| && NoRemovals(turns)
    requires DeployedAll(c, i, w, ms, turns).outcome.Ok?
    ensures var s := DeployedAll(c, i, w, ms, turns).world.server;
            && w.server.objects.Keys <= s.objects.Keys
            && (forall m | m in ms && !CreateOnly(c, Stamped(c, i, m)) :: m.key in s.objects)
    decreases |ms|
  {
    if ms != [] {
      assert turns[0] in turns && forall t | t in turns[1..] :: t in turns;
      hide Stamped, DeployedAmid, CreateOnly, Coherent, NoRemoval;
      SufferedKeepsKeys(w.server, turns[0].before);
      var met := Before(w, turns[0]);
      BeforeKeepsCoherent(c, i.owner, w, turns[0]);
      var step := DeployedAmid(c, i.owner, met, Stamped(c, i, ms[0]), turns[0].between);
      DeployKeepsCoherent(c, i.owner, met, Stamped(c, i, ms[0]), turns[0].between);
      DeployKeepsKeys(c, i.owner, met, Stamped(c, i, ms[0]), turns[0].between);
      RenderedArePresent(c, i, step.world, ms[1..], turns[1..]);
      if !CreateOnly(c, Stamped(c, i, ms[0])) {
        DeployMakesSafe(c, i, met, ms[0], turns[0].between);
      }
      assert forall m | m in ms :: m == ms[0] || m in ms[1..];
    }
  }

  // ----- what the collector makes of it -----

  /** The collector reads its own opt-out key; the deployer's may be another one. */
  predicate SameOptOut(c: Config) {
    c.managedKey == MANAGED
  }

  /** Opted out of deployment, and not of collection. */
  predicate HalfOptedOut(c: Config, m: Manifest) {
    Lookup(m.annotations, c.managedKey) == "false" && Lookup(m.annotations, MANAGED) != "false"
  }

  /** What the collector asks of an object besides the opt-out: its own, and with stamps that do not match. */
  predicate Collectable(g: GcConfig, p: RunParams, o: Object) {
    && !o.terminating
    && (g.onlyOwned ==> Owned(g, p, o.content) == Some(true))
    && DefaultObjectPredicate(p, o.content) == Some(true)
  }

  /** The one way in which a rendered resource is lost. */
  predicate Exposed(c: Config, g: GcConfig, p: RunParams, types: seq<GroupVersionKind>, s: Server, k: Key) {
    && Listed(g, p, types, s, k)
    && HalfOptedOut(c, s.objects[k].content) && Collectable(g, p, s.objects[k])
  }

  lemma FreshIsNotStale(i: Input, p: RunParams, m: Manifest)
    requires Proper(i) && SameRun(i, p)
    requires FreshlyStamped(p.owner, i, m)
    ensures DefaultObjectPredicate(p, m) == Some(false)
  {
    Decimal.AtoiOfFormatInt(i.generation);
  }

  /** Of the spared objects, only those opted out under another key are taken, and exactly when they are stale. */
  lemma SparedIsDoomedExactlyWhen(
      c: Config, i: Input, g: GcConfig, p: RunParams, types: seq<GroupVersionKind>, s: Server, k: Key)
    requires Proper(i) && SameRun(i, p) && Configured(g) && ValidServer(s) && Spared(c, i, s, k)
    ensures Doomed(g, p, types, s, k) <==> Exposed(c, g, p, types, s, k)
  {
    if k in s.objects && FreshlyStamped(p.owner, i, s.objects[k].content) {
      FreshIsNotStale(i, p, s.objects[k].content);
    }
  }

  /** The world the sweep meets: everything deployed, and others acting after that. */
  function Met(c: Config, i: Input, w: World, ms: seq<Manifest>, turns: seq<Turn>, after: seq<Act>): World
    requires |turns| == |ms|
  {
    var deployed := DeployedAll(c, i, w, ms, turns).world;
    deployed.(server := Suffered(deployed.server, after))
  }

  /** Nobody does harm to the rendered resources; what others do to anything else does not matter. */
  ghost predicate HarmlessCycle(c: Config, i: Input, w: World, ms: seq<Manifest>, turns: seq<Turn>, after: seq<Act>)
    requires i.owner.Some? && |turns| == |ms|
  {
    && HarmlessTurns(c, i, KeysOf(ms), w, ms, turns)
    && AllHarmless(c, i, KeysOf(ms), DeployedAll(c, i, w, ms, turns).world.server, after)
  }

  lemma MetCoherent(c: Config, i: Input, w: World, ms: seq<Manifest>, turns: seq<Turn>, after: seq<Act>)
    requires Coherent(c, i.owner, w) && |turns| == |ms|
    ensures Coherent(c, i.owner, Met(c, i, w, ms, turns, after))
  {
    hide DeployedAll, Coherent;
    var deployed := DeployedAll(c, i, w, ms, turns).world;
    DeployAllKeepsCoherent(c, i, w, ms, turns);
    SufferedIsHistory(c, i.owner, deployed, after);
    ReachedCoherent(c, i.owner, deployed, Foreigns(after));
  }

  /** What was rendered is spared when the sweep starts. */
  lemma MetSpares(
      c: Config, i: Input, w: World, ms: seq<Manifest>, turns: seq<Turn>, after: seq<Act>, m: Manifest)
    requires Proper(i) && Coherent(c, i.owner, w) && |turns| == |ms| && DeployedAll(c, i, w, ms, turns).outcome.Ok?
    requires HarmlessCycle(c, i, w, ms, turns, after) && m in ms && !CreateOnly(c, Stamped(c, i, m))
    ensures Spared(c, i, Met(c, i, w, ms, turns, after).server, m.key)
  {
    hide Stamped, CreateOnly, DeployedAll, Coherent, HarmlessTurns, Spared, AllHarmless;
    DeployAllMakesSpared(c, i, KeysOf(ms), w, ms, turns, m);
    HarmlessKeepsSpared(c, i, KeysOf(ms), DeployedAll(c, i, w, ms, turns).world.server, after, m.key);
  }

  /**
   * A rendered resource is taken exactly when it is exposed. From any coherent
   * world, however other actors shaped it, after all resources were deployed the
   * sweep for the same owner and release deletes one whose stamped manifest is
   * not create-only exactly when its live object is opted out under the
   * deployer's key, not under the collector's, and stale; as long as nobody in
   * the meantime takes the stamps off. Without removals every one is there.
   */
  lemma RenderedAreTakenExactlyWhen(
      c: Config, i: Input, w: World, ms: seq<Manifest>, turns: seq<Turn>, after: seq<Act>,
      g: GcConfig, p: RunParams, types: seq<GroupVersionKind>)
    requires Proper(i) && SameRun(i, p) && Configured(g)
    requires Coherent(c, i.owner, w) && |turns| == |ms| && DeployedAll(c, i, w, ms, turns).outcome.Ok?
    ensures HarmlessCycle(c, i, w, ms, turns, after) ==>
              forall m | m in ms && !CreateOnly(c, Stamped(c, i, m)) ::
                var s := Met(c, i, w, ms, turns, after).server;
                Doomed(g, p, types, s, m.key) <==> Exposed(c, g, p, types, s, m.key)
    ensures NoRemovals(turns) && NoRemoval(after) ==>
              forall m | m in ms && !CreateOnly(c, Stamped(c, i, m)) ::
                m.key in Met(c, i, w, ms, turns, after).server.objects
  {
    hide Stamped, CreateOnly, DeployedAll, Doomed, Exposed, Coherent, HarmlessTurns, NoRemoval, NoRemovals, Spared;
    hide AllHarmless, Configured;
    var deployed, s := DeployedAll(c, i, w, ms, turns).world.server, Met(c, i, w, ms, turns, after).server;
    if HarmlessCycle(c, i, w, ms, turns, after) {
      MetCoherent(c, i, w, ms, turns, after);
      ValidWorld(c, i.owner, Met(c, i, w, ms, turns, after));
      forall m | m in ms && !CreateOnly(c, Stamped(c, i, m))
        ensures Doomed(g, p, types, s, m.key) <==> Exposed(c, g, p, types, s, m.key)
      {
        MetSpares(c, i, w, ms, turns, after, m);
        SparedIsDoomedExactlyWhen(c, i, g, p, types, s, m.key);
      }
    }
    if NoRemovals(turns) && NoRemoval(after) {
      RenderedArePresent(c, i, w, ms, turns);
      SufferedKeepsKeys(deployed, after);
    }
  }

  lemma CreatedOnce(c: Config, owner: Option<Owner>, w: World, m: Manifest)
    requires CreateOnly(c, m)
    ensures DeployedOne(c, owner, w, m).world.server
         == if m.key in w.server.objects then w.server else Put(w.server, Created(c, m), false)
  {
  }

  /**
   * A create-only resource is another matter. A deployment nobody disturbs
   * creates it if it is missing, with the stamps of the day, and never touches it
   * again: the sweep takes it exactly when it would have taken it without the
   * deployment. So it goes with the next generation or release, and is created
   * anew by the cycle after that.
   */
  lemma CreateOnlyIsTakenExactlyWhen(
      c: Config, i: Input, w: World, res: Manifest, g: GcConfig, p: RunParams, types: seq<GroupVersionKind>)
    requires Proper(i) && SameRun(i, p) && Configured(g) && ValidServer(w.server)
    requires CreateOnly(c, Stamped(c, i, res)) && c.managedKey !in STAMPS
    ensures var after := DeployedOne(c, i.owner, w, Stamped(c, i, res)).world.server;
            && res.key in after.objects
            && (Doomed(g, p, types, after, res.key) <==> Doomed(g, p, types, w.server, res.key))
  {
    var m := Stamped(c, i, res);
    StampingKeepsKey(c, i, res);
    CreatedIsFresh(c, i, res);
    FreshIsNotStale(i, p, Created(c, m));
    hide Stamped, Matches, Owned, FreshlyStamped, DefaultObjectPredicate, DeployedOne, CreateOnly;
    CreatedOnce(c, i.owner, w, m);
  }

  // ----- which configurations are safe -----

  /** A cycle that goes through undisturbed enough, with `m` among the resources it renders. */
  ghost predicate RendersHarmlessly(
      c: Config, i: Input, w: World, ms: seq<Manifest>, turns: seq<Turn>, after: seq<Act>, m: Manifest)
    requires i.owner.Some?
  {
    && Coherent(c, i.owner, w) && |turns| == |ms| && m in ms
    && DeployedAll(c, i, w, ms, turns).outcome.Ok? && HarmlessCycle(c, i, w, ms, turns, after)
  }

  /** The object of a user who opted out under the deployer's key: no stamps, but otherwise the collector's own. */
  function OptedOutObject(c: Config, g: GcConfig, p: RunParams, k: Key): Object {
    var labels := if g.labels != map[] then g.labels else map[PART_OF := ToLower(p.owner.gvk.kind)];
    Object(Manifest(k, labels, map[c.managedKey := "false"], map[p.owner.uid := RefTo(p.owner)], map[]), 1, false)
  }

  /** The resource is of a type that is swept, and the owner's type one that owner references can name. */
  predicate InReach(g: GcConfig, p: RunParams, types: seq<GroupVersionKind>, k: Key) {
    && k.gvk in types && k.gvk !in g.unremovables && g.typePredicate(k.gvk)
    && Slashes(p.owner.gvk.group) == 0 && Slashes(p.owner.gvk.version) == 0 && p.owner.gvk.version != ""
  }

  lemma OptedOutObjectIsExposed(
      c: Config, g: GcConfig, p: RunParams, types: seq<GroupVersionKind>, s: Server, k: Key)
    requires Configured(g) && InReach(g, p, types, k) && !SameOptOut(c)
    requires s == Server(map[k := OptedOutObject(c, g, p, k)], 1)
    ensures Exposed(c, g, p, types, s, k) && ValidServer(s)
  {
    StampKeysDiffer();
    var m := s.objects[k].content;
    ParsePrintedGroupVersion(p.owner.gvk);
    assert RefersTo(m.owners[p.owner.uid], p.owner.gvk) == Some(true);
    var refs := RefsIn(g.ownersListed(m), m.owners);
    RefsInLists(g.ownersListed(m), m.owners);
    OwnedByTypeFinds(refs, p.owner.gvk);
    assert m.owners[p.owner.uid] in refs;
    assert forall j | 0 <= j < |refs| :: refs[j] in refs;
    assert refs[0] == RefTo(p.owner);
  }

  /**
   * Whether rendered resources are safe from the sweep for every world and every
   * cycle is decided by the configuration alone: exactly when the deployer's
   * opt-out key is the collector's. For every other key there is a world with
   * one object in which the next cycle takes a resource it has just rendered.
   * (If the deployer's own annotations opt everything out, no manifest but that
   * of a CRD is left that is not create-only.)
   */
  lemma NeverTakenExactlyWhen(
      c: Config, i: Input, g: GcConfig, p: RunParams, types: seq<GroupVersionKind>, m: Manifest)
    requires Proper(i) && SameRun(i, p) && Configured(g) && InReach(g, p, types, m.key)
    requires !CreateOnly(c, Stamped(c, i, m))
    ensures (forall w, ms, turns, after | RendersHarmlessly(c, i, w, ms, turns, after, m) ::
               !Doomed(g, p, types, Met(c, i, w, ms, turns, after).server, m.key))
       <==> SameOptOut(c)
  {
    hide Stamped, CreateOnly, Doomed, Coherent, HarmlessCycle, Met, Configured;
    if SameOptOut(c) {
      forall w, ms, turns, after | RendersHarmlessly(c, i, w, ms, turns, after, m)
        ensures !Doomed(g, p, types, Met(c, i, w, ms, turns, after).server, m.key)
      {
        RenderedAreTakenExactlyWhen(c, i, w, ms, turns, after, g, p, types);
      }
    } else {
      var w, turn := TakingWorld(c, i, g, p, types, m);
      assert RendersHarmlessly(c, i, w, [m], [turn], [], m);
    }
  }

  /** The failing input for a foreign key. */
  lemma TakingWorld(
      c: Config, i: Input, g: GcConfig, p: RunParams, types: seq<GroupVersionKind>, m: Manifest)
    returns (w: World, turn: Turn)
    requires Proper(i) && SameRun(i, p) && Configured(g) && InReach(g, p, types, m.key) && !SameOptOut(c)
    ensures w == World(Server(map[m.key := OptedOutObject(c, g, p, m.key)], 1), Some({}))
    ensures turn == Turn({}, [], NOBODY)
    ensures RendersHarmlessly(c, i, w, [m], [turn], [], m)
    ensures Doomed(g, p, types, Met(c, i, w, [m], [turn], []).server, m.key)
  {
    w, turn := World(Server(map[m.key := OptedOutObject(c, g, p, m.key)], 1), Some({})), Turn({}, [], NOBODY);
    OptedOutObjectIsExposed(c, g, p, types, w.server, m.key);
    ExposedIsDoomed(c, g, p, types, w.server, m.key);
    hide Stamped, Exposed, Doomed, Reflects;
    OptedOutIsPassedOver(c, i, w, m);
    assert Met(c, i, w, [m], [turn], []) == w;
  }

  /** A cycle of one resource whose object is opted out under the deployer's key goes by without a trace. */
  lemma OptedOutIsPassedOver(c: Config, i: Input, w: World, m: Manifest)
    requires i.owner.Some? && m.key in w.server.objects && w.cache == Some({})
    requires Lookup(w.server.objects[m.key].content.annotations, c.managedKey) == "false"
    ensures var turn := Turn({}, [], NOBODY);
            && DeployedAll(c, i, w, [m], [turn]) == Step(w, Ok(true))
            && HarmlessTurns(c, i, KeysOf([m]), w, [m], [turn])
  {
    StampingKeepsKey(c, i, m);
    hide Stamped, Attempted;
    var turn, stamped := Turn({}, [], NOBODY), Stamped(c, i, m);
    assert w.cache.value - turn.expired == {};
    assert Before(w, turn) == w && DeployedAmid(c, i.owner, w, stamped, turn.between) == Step(w, Ok(false));
    assert [m][1..] == [] && [turn][1..] == [];
    assert DeployedAll(c, i, w, [m], [turn]) == DeployedAll(c, i, w, [], []);
    assert HarmlessTurns(c, i, KeysOf([m]), w, [], []);
    assert HarmlessTurn(c, i, KeysOf([m]), w, stamped, turn);
  }

  lemma ExposedIsDoomed(c: Config, g: GcConfig, p: RunParams, types: seq<GroupVersionKind>, s: Server, k: Key)
    requires ValidServer(s) && Exposed(c, g, p, types, s, k)
    ensures Doomed(g, p, types, s, k)
  {
  }

  // ----- what is left behind, and what is not -----

  /** The stamps as the collector reads them. */
  predicate StampsMatch(p: RunParams, m: Manifest) {
    && p.version != "" && Lookup(m.annotations, PLATFORM_VERSION) == p.version
    && p.platformType != "" && Lookup(m.annotations, PLATFORM_TYPE) == p.platformType
    && p.owner.uid != "" && Lookup(m.annotations, INSTANCE_UID) == p.owner.uid
    && Decimal.Atoi(Lookup(m.annotations, INSTANCE_GENERATION)) == Some(p.generation)
  }

  /** Why an object that was listed may be left behind. */
  predicate Accounted(g: GcConfig, p: RunParams, o: Object) {
    || o.terminating
    || Lookup(o.content.annotations, MANAGED) == "false"
    || (g.onlyOwned && Owned(g, p, o.content) == Some(false))
    || o.content.annotations == map[]
    || StampsMatch(p, o.content)
  }

  /** A listed object without malformed metadata is left behind exactly for one of these reasons. */
  lemma LeftBehindExactlyWhen(g: GcConfig, p: RunParams, o: Object)
    requires o.content.key.gvk !in g.unremovables && IsObjectDeletable(g, p, o.content).Ok?
    ensures !MayGo(g, p, o) <==> Accounted(g, p, o)
  {
    assert Decimal.Atoi("").None?;
  }

  /**
   * And nothing stale survives: an untouched object of an earlier deployment
   * by the same owner is doomed as soon as the generation, the release type or
   * the version has moved on and it was not deployed again.
   */
  lemma StaleIsCollected(
      old': Input, g: GcConfig, p: RunParams, types: seq<GroupVersionKind>, s: Server, k: Key)
    requires Proper(old') && old'.owner == Some(p.owner) && ValidServer(s) && Configured(g)
    requires Listed(g, p, types, s, k) && !s.objects[k].terminating
    requires FreshlyStamped(p.owner, old', s.objects[k].content)
    requires Lookup(s.objects[k].content.annotations, MANAGED) != "false"
    requires OwnedBy(p.owner, s.objects[k].content) && Owned(g, p, s.objects[k].content).Some?
    requires Slashes(p.owner.gvk.group) == 0 && Slashes(p.owner.gvk.version) == 0 && p.owner.gvk.version != ""
    requires old'.generation != p.generation || old'.release != Release(p.platformType, p.version)
    ensures Doomed(g, p, types, s, k)
  {
    var m := s.objects[k].content;
    ParsePrintedGroupVersion(p.owner.gvk);
    assert RefersTo(m.owners[p.owner.uid], p.owner.gvk) == Some(true);
    RefsInLists(g.ownersListed(m), m.owners);
    OwnedByTypeFinds(RefsIn(g.ownersListed(m), m.owners), p.owner.gvk);
    assert m.owners[p.owner.uid] in RefsIn(g.ownersListed(m), m.owners);
    Decimal.AtoiOfFormatInt(old'.generation);
  }

  // ----- a sweep while others act -----

  /** What others do during the deletion loop is harmless where it happens. */
  ghost predicate HarmlessItems(
      c: Config, i: Input, ks: set<Key>, g: GcConfig, p: RunParams,
      s: Server, items: seq<Object>, pauses: nat -> Pause, n: nat)
    requires i.owner.Some? && n <= |items|
    decreases |items| - n
  {
    n == |items| ||
    match ItemStep(g, p, s, items[n], pauses(n))
    case Passed => HarmlessItems(c, i, ks, g, p, s, items, pauses, n + 1)
    case Failed(_, _) => true
    case Gone(s', _) =>
      AllHarmless(c, i, ks, s, pauses(n).acts) && HarmlessItems(c, i, ks, g, p, s', items, pauses, n + 1)
  }

  ghost predicate HarmlessType(
      c: Config, i: Input, ks: set<Key>, g: GcConfig, p: RunParams, s: Server, turn: TypeTurn, t: Tally)
    requires i.owner.Some?
  {
    && AllHarmless(c, i, ks, s, turn.before)
    && HarmlessItems(c, i, ks, g, p, Suffered(s, turn.before), t.listed, turn.pauses, 0)
  }

  ghost predicate HarmlessSweep(
      c: Config, i: Input, ks: set<Key>, g: GcConfig, p: RunParams, s: Server, turns: nat -> TypeTurn,
      steps: seq<Tally>)
    requires i.owner.Some?
  {
    forall n | 0 <= n < |steps| :: HarmlessType(c, i, ks, g, p, ServerAfter(s, steps[..n]), turns(n), steps[n])
  }

  lemma {:induction false} ItemsKeepSpared(
      c: Config, i: Input, ks: set<Key>, g: GcConfig, p: RunParams,
      s: Server, items: seq<Object>, pauses: nat -> Pause, n: nat, k: Key)
    requires i.owner.Some? && n <= |items| && HarmlessItems(c, i, ks, g, p, s, items, pauses, n)
    requires k in ks && Spared(c, i, s, k) && ItemsDeleted(g, p, s, items, pauses, n).error == None
    ensures Spared(c, i, ItemsDeleted(g, p, s, items, pauses, n).server, k)
    decreases |items| - n
  {
    hide IsObjectDeletable, FreshlyStamped;
    if n < |items| {
      match ItemStep(g, p, s, items[n], pauses(n))
      case Passed =>
        ItemsKeepSpared(c, i, ks, g, p, s, items, pauses, n + 1, k);
      case Failed(_, _) =>
      case Gone(s', _) =>
        HarmlessKeepsSpared(c, i, ks, s, pauses(n).acts, k);
        ItemsKeepSpared(c, i, ks, g, p, s', items, pauses, n + 1, k);
    }
  }

  lemma TypeKeepsSpared(
      c: Config, i: Input, ks: set<Key>, g: GcConfig, p: RunParams,
      s: Server, gvk: GroupVersionKind, turn: TypeTurn, t: Tally, k: Key)
    requires i.owner.Some? && Collects(g, p, s, gvk, turn, t) && HarmlessType(c, i, ks, g, p, s, turn, t)
    requires k in ks && Spared(c, i, s, k)
    ensures Spared(c, i, Suffered(s, turn.before), k)
    ensures t.error == None ==> Spared(c, i, t.server, k)
  {
    hide ListedBy, ItemsDeleted, Spared, Suffered;
    HarmlessKeepsSpared(c, i, ks, s, turn.before, k);
    if t.error == None && Sweepable(g, gvk) && turn.answer.Lists? {
      ItemsKeepSpared(c, i, ks, g, p, Suffered(s, turn.before), t.listed, turn.pauses, 0, k);
    }
  }

  lemma {:induction false} SweepKeepsSpared(
      c: Config, i: Input, ks: set<Key>, g: GcConfig, p: RunParams,
      s: Server, types: seq<GroupVersionKind>, turns: nat -> TypeTurn, steps: seq<Tally>, n: nat, k: Key)
    requires i.owner.Some? && SweepsOn(g, p, s, types, turns, steps) && HarmlessSweep(c, i, ks, g, p, s, turns, steps)
    requires n < |steps| && k in ks && Spared(c, i, s, k)
    ensures Spared(c, i, ServerAfter(s, steps[..n]), k)
    decreases n
  {
    hide Collects, HarmlessType, Spared;
    if n > 0 {
      var before := ServerAfter(s, steps[..n - 1]);
      SweepKeepsSpared(c, i, ks, g, p, s, types, turns, steps, n - 1, k);
      assert Collects(g, p, before, types[n - 1], turns(n - 1), steps[n - 1]);
      assert HarmlessType(c, i, ks, g, p, before, turns(n - 1), steps[n - 1]);
      TypeKeepsSpared(c, i, ks, g, p, before, types[n - 1], turns(n - 1), steps[n - 1], k);
      assert steps[..n][n - 1] == steps[n - 1];
    }
  }

  /**
   * If others do the rendered resources no harm during the sweep either, the
   * sweep never asks for the deletion of one that is spared when it starts,
   * unless the copy it goes by is opted out under the deployer's key only.
   */
  lemma SparedIsAskedOnlyWhen(
      c: Config, i: Input, ks: set<Key>, g: GcConfig, p: RunParams,
      s: Server, types: seq<GroupVersionKind>, turns: nat -> TypeTurn, steps: seq<Tally>, d: Deletion)
    requires Proper(i) && SameRun(i, p) && Configured(g) && ValidServer(s)
    requires SweepsOn(g, p, s, types, turns, steps) && HarmlessSweep(c, i, ks, g, p, s, turns, steps)
    requires d in Deletions(steps) && d.listed.content.key in ks && Spared(c, i, s, d.listed.content.key)
    ensures HalfOptedOut(c, d.listed.content) && Collectable(g, p, d.listed)
  {
    hide Collects, HarmlessType, Spared, HarmlessSweep, Configured, IsObjectDeletable, Suffered, ItemsDeleted, Listed;
    DeletionsOfSteps(steps, d);
    var n :| 0 <= n < |steps| && d in steps[n].deletions;
    var before, k := ServerAfter(s, steps[..n]), d.listed.content.key;
    SweepKeepsSpared(c, i, ks, g, p, s, types, turns, steps, n, k);
    assert Collects(g, p, before, types[n], turns(n), steps[n]);
    HarmlessAt(c, i, ks, g, p, s, turns, steps, n);
    TypeKeepsSpared(c, i, ks, g, p, before, types[n], turns(n), steps[n], k);
    TypeAsksExactlyFor(g, p, before, types[n], turns(n), steps[n]);
    SafeMayGoOnlyWhen(c, i, g, p, Suffered(before, turns(n).before), d.listed);
  }

  lemma HarmlessAt(
      c: Config, i: Input, ks: set<Key>, g: GcConfig, p: RunParams, s: Server, turns: nat -> TypeTurn,
      steps: seq<Tally>, n: nat)
    requires i.owner.Some? && HarmlessSweep(c, i, ks, g, p, s, turns, steps) && n < |steps|
    ensures HarmlessType(c, i, ks, g, p, ServerAfter(s, steps[..n]), turns(n), steps[n])
  {
  }

  lemma SafeMayGoOnlyWhen(c: Config, i: Input, g: GcConfig, p: RunParams, s: Server, o: Object)
    requires Proper(i) && SameRun(i, p) && Configured(g) && MayGo(g, p, o)
    requires o.content.key in s.objects && s.objects[o.content.key] == o && Spared(c, i, s, o.content.key)
    ensures HalfOptedOut(c, o.content) && Collectable(g, p, o)
  {
    if FreshlyStamped(p.owner, i, o.content) {
      FreshIsNotStale(i, p, o.content);
    }
  }

  /** Of the objects a type listed, exactly the unaccounted ones were asked to be deleted. */
  ghost predicate AllAccounted(g: GcConfig, p: RunParams, t: Tally) {
    forall o | o in t.listed :: Accounted(g, p, o) <==> !exists d | d in t.deletions :: d.listed == o
  }

  lemma TypeIsAccounted(g: GcConfig, p: RunParams, s: Server, gvk: GroupVersionKind, turn: TypeTurn, t: Tally)
    requires Collects(g, p, s, gvk, turn, t) && t.error == None
    ensures AllAccounted(g, p, t)
  {
    TypeAsksExactlyFor(g, p, s, gvk, turn, t);
    hide IsObjectDeletable, Accounted, Suffered, ItemsDeleted;
    forall o | o in t.listed ensures Accounted(g, p, o) <==> !exists d | d in t.deletions :: d.listed == o {
      LeftBehindExactlyWhen(g, p, o);
    }
  }

  // ----- cycles -----

  /** One reconcile cycle: what is deployed and swept, and what happens around and during both. */
  datatype Round = Round(
    input: Input, params: RunParams, resources: seq<Manifest>, turns: seq<Turn>, after: seq<Act>,
    types: seq<GroupVersionKind>, sweeping: nat -> TypeTurn)

  predicate Regular(r: Round) {
    |r.turns| == |r.resources| && Proper(r.input) && SameRun(r.input, r.params)
  }

  /** How the sweep went; a failed deployment skips it. `gone` is what an undisturbed sweep deletes. */
  datatype SweepRun = Skipped | Ran(steps: seq<Tally>, gone: set<Key>)

  function MetIn(c: Config, w: World, r: Round): World
    requires |r.turns| == |r.resources|
  {
    Met(c, r.input, w, r.resources, r.turns, r.after)
  }

  function Report(steps: seq<Tally>): Result<nat, GcError> {
    match ErrorOf(steps) case Some(e) => Err(e) case None => Ok(|Deletions(steps)|)
  }

  /** From `w` the cycle may end in `w'`. */
  ghost predicate Cycles(c: Config, g: GcConfig, w: World, r: Round, sweep: SweepRun, w': World)
    requires |r.turns| == |r.resources|
  {
    var step, met := DeployedAll(c, r.input, w, r.resources, r.turns), MetIn(c, w, r);
    match sweep
    case Skipped => step.outcome.Err? && w' == step.world
    case Ran(steps, gone) =>
      && step.outcome.Ok? && Sweeps(g, r.params, met.server, r.types, r.sweeping, steps)
      && w' == met.(server := ServerAfter(met.server, steps))
      && (Undisturbed(r.sweeping) ==>
            SweptClean(g, r.params, r.types, met.server, w'.server, Report(steps), gone))
  }

  /** Nobody does harm to the rendered resources before or during the sweep. */
  ghost predicate HarmlessRound(c: Config, g: GcConfig, w: World, r: Round, steps: seq<Tally>)
    requires Regular(r)
  {
    && HarmlessCycle(c, r.input, w, r.resources, r.turns, r.after)
    && HarmlessSweep(c, r.input, KeysOf(r.resources), g, r.params, MetIn(c, w, r).server, r.sweeping, steps)
  }

  /** A rendered resource whose manifest is not create-only. */
  predicate Rendered(c: Config, r: Round, m: Manifest) {
    m in r.resources && !CreateOnly(c, Stamped(c, r.input, m))
  }

  /** The sweep asks for no rendered resource but one opted out under the deployer's key only. */
  ghost predicate SparesRendered(c: Config, g: GcConfig, r: Round, steps: seq<Tally>) {
    forall m, d | Rendered(c, r, m) && d in Deletions(steps) && d.listed.content.key == m.key ::
      HalfOptedOut(c, d.listed.content) && Collectable(g, r.params, d.listed)
  }

  /** Undisturbed, it leaves them as they are, all but the exposed ones, and takes all of those if it goes through. */
  ghost predicate LeavesRendered(
      c: Config, g: GcConfig, r: Round, met: Server, ok: bool, gone: set<Key>, after: Server)
  {
    forall m | Rendered(c, r, m) && m.key in met.objects ::
      var exposed := Exposed(c, g, r.params, r.types, met, m.key);
      && (m.key in gone ==> exposed) && (ok && exposed ==> m.key in gone)
      && (m.key !in gone ==> m.key in after.objects && after.objects[m.key] == met.objects[m.key])
  }

  /**
   * What one cycle promises: the rendered resources survive, all but the exposed
   * ones, and every object a type listed is either accounted for or asked to be
   * deleted.
   */
  ghost predicate KeepsPromise(c: Config, g: GcConfig, w: World, r: Round, sweep: SweepRun, w': World)
    requires Regular(r)
  {
    sweep.Ran? ==>
      && (HarmlessRound(c, g, w, r, sweep.steps) ==> SparesRendered(c, g, r, sweep.steps))
      && (HarmlessCycle(c, r.input, w, r.resources, r.turns, r.after) && Undisturbed(r.sweeping) ==>
            LeavesRendered(c, g, r, MetIn(c, w, r).server, ErrorOf(sweep.steps) == None, sweep.gone, w'.server))
      && (forall t | t in sweep.steps && t.error == None :: AllAccounted(g, r.params, t))
  }

  lemma RoundSparesRendered(c: Config, g: GcConfig, w: World, r: Round, steps: seq<Tally>)
    requires Regular(r) && Configured(g) && Coherent(c, r.input.owner, w) && HarmlessRound(c, g, w, r, steps)
    requires DeployedAll(c, r.input, w, r.resources, r.turns).outcome.Ok?
    requires SweepsOn(g, r.params, MetIn(c, w, r).server, r.types, r.sweeping, steps)
    ensures SparesRendered(c, g, r, steps)
  {
    hide Configured, Coherent, Deletions, SweepsOn, HarmlessSweep, Stamped, CreateOnly, DeployedAll, Spared,
        HalfOptedOut;
    hide HarmlessTurns, AllHarmless, Collectable, Proper, SameRun;
    var i, met := r.input, MetIn(c, w, r).server;
    MetCoherent(c, i, w, r.resources, r.turns, r.after);
    ValidWorld(c, i.owner, MetIn(c, w, r));
    forall m, d | Rendered(c, r, m) && d in Deletions(steps) && d.listed.content.key == m.key
      ensures HalfOptedOut(c, d.listed.content) && Collectable(g, r.params, d.listed)
    {
      MetSpares(c, i, w, r.resources, r.turns, r.after, m);
      SparedIsAskedOnlyWhen(c, i, KeysOf(r.resources), g, r.params, met, r.types, r.sweeping, steps, d);
    }
  }

  lemma RoundLeavesRendered(
      c: Config, g: GcConfig, w: World, r: Round, result: Result<nat, GcError>, gone: set<Key>, after: Server)
    requires Regular(r) && Configured(g) && Coherent(c, r.input.owner, w)
    requires HarmlessCycle(c, r.input, w, r.resources, r.turns, r.after)
    requires DeployedAll(c, r.input, w, r.resources, r.turns).outcome.Ok?
    requires SweptClean(g, r.params, r.types, MetIn(c, w, r).server, after, result, gone)
    ensures LeavesRendered(c, g, r, MetIn(c, w, r).server, result.Ok?, gone, after)
  {
    hide Configured, Coherent, Stamped, CreateOnly, DeployedAll, Doomed, Exposed, HarmlessCycle, Met, Proper, SameRun;
    RenderedAreTakenExactlyWhen(c, r.input, w, r.resources, r.turns, r.after, g, r.params, r.types);
  }

  /** A sweep, disturbed or not, keeps every remaining cache entry true of its object. */
  lemma SweepKeepsCoherent(
      c: Config, owner: Option<Owner>, w: World,
      g: GcConfig, p: RunParams, types: seq<GroupVersionKind>, turns: nat -> TypeTurn, steps: seq<Tally>)
    requires Coherent(c, owner, w) && SweepsOn(g, p, w.server, types, turns, steps)
    ensures Coherent(c, owner, w.(server := ServerAfter(w.server, steps)))
  {
    hide Coherent, SweepsOn;
    var acts := SweepIsHistory(g, p, w.server, types, turns, steps);
    SufferedIsHistory(c, owner, w, acts);
    ReachedCoherent(c, owner, w, Foreigns(acts));
  }

  lemma CycleKeepsPromise(c: Config, g: GcConfig, w: World, r: Round, sweep: SweepRun, w': World)
    requires Regular(r) && Configured(g) && Coherent(c, r.input.owner, w) && Cycles(c, g, w, r, sweep, w')
    ensures KeepsPromise(c, g, w, r, sweep, w') && Coherent(c, r.input.owner, w')
  {
    hide DeployedAll, Coherent, HarmlessRound, HarmlessCycle, Met, Configured, SweptClean, Undisturbed, AllAccounted;
    hide Collects, SparesRendered, LeavesRendered, SameRun;
    DeployAllKeepsCoherent(c, r.input, w, r.resources, r.turns);
    if sweep.Ran? {
      var met, steps := MetIn(c, w, r), sweep.steps;
      MetCoherent(c, r.input, w, r.resources, r.turns, r.after);
      SweepKeepsCoherent(c, r.input.owner, met, g, r.params, r.types, r.sweeping, steps);
      if HarmlessRound(c, g, w, r, steps) {
        RoundSparesRendered(c, g, w, r, steps);
      }
      if HarmlessCycle(c, r.input, w, r.resources, r.turns, r.after) && Undisturbed(r.sweeping) {
        RoundLeavesRendered(c, g, w, r, Report(steps), sweep.gone, w'.server);
      }
      forall t | t in steps && t.error == None ensures AllAccounted(g, r.params, t) {
        var n :| 0 <= n < |steps| && steps[n] == t;
        assert Collects(g, r.params, ServerAfter(met.server, steps[..n]), r.types[n], r.sweeping(n), steps[n]);
        TypeIsAccounted(g, r.params, ServerAfter(met.server, steps[..n]), r.types[n], r.sweeping(n), t);
      }
    }
  }

  /** A run: cycles, and between them any history of others, of expiry, and of other deployers sharing the cache. */
  datatype Stage = Outside(e: Event) | Inside(r: Round, sweep: SweepRun)

  ghost predicate Taken(c: Config, g: GcConfig, owner: Owner, w: World, stage: Stage, w': World) {
    match stage
    case Outside(e) => w' == Next(c, Some(owner), w, e)
    case Inside(r, sweep) => Regular(r) && r.input.owner == Some(owner) && Cycles(c, g, w, r, sweep, w')
  }

  ghost predicate Promised(c: Config, g: GcConfig, w: World, stage: Stage, w': World) {
    stage.Inside? ==> Regular(stage.r) && KeepsPromise(c, g, w, stage.r, stage.sweep, w')
  }

  lemma StageKeepsPromise(c: Config, g: GcConfig, owner: Owner, w: World, stage: Stage, w': World)
    requires Configured(g) && Coherent(c, Some(owner), w) && Taken(c, g, owner, w, stage, w')
    ensures Coherent(c, Some(owner), w') && Promised(c, g, w, stage, w')
  {
    hide Coherent, Cycles, KeepsPromise, Next, Configured, Regular;
    match stage
    case Outside(e) => StepKeepsCoherent(c, Some(owner), w, e);
    case Inside(r, sweep) => CycleKeepsPromise(c, g, w, r, sweep, w');
  }

  /** Over any run of cycles, with generations and releases moving on, each cycle keeps its promise. */
  lemma {:induction false} EveryCycleKeepsPromise(
      c: Config, g: GcConfig, owner: Owner, ws: seq<World>, stages: seq<Stage>)
    requires Configured(g) && |ws| == |stages| + 1 && Coherent(c, Some(owner), ws[0])
    requires forall n | 0 <= n < |stages| :: Taken(c, g, owner, ws[n], stages[n], ws[n + 1])
    ensures forall n | 0 <= n < |ws| :: Coherent(c, Some(owner), ws[n])
    ensures forall n | 0 <= n < |stages| :: Promised(c, g, ws[n], stages[n], ws[n + 1])
    decreases |stages|
  {
    hide *;
    if stages != [] {
      var worlds, later := ws[1..], stages[1..];
      StageKeepsPromise(c, g, owner, ws[0], stages[0], ws[1]);
      forall n | 0 <= n < |later| ensures Taken(c, g, owner, worlds[n], later[n], worlds[n + 1]) {
        assert worlds[n] == ws[n + 1] && later[n] == stages[n + 1];
      }
      EveryCycleKeepsPromise(c, g, owner, worlds, later);
      forall n | 0 <= n < |ws| ensures Coherent(c, Some(owner), ws[n]) {
        if n > 0 { assert ws[n] == worlds[n - 1]; }
      }
      forall n | 0 <= n < |stages| ensures Promised(c, g, ws[n], stages[n], ws[n + 1]) {
        if n > 0 { assert ws[n] == worlds[n - 1] && stages[n] == later[n - 1]; }
      }
    }
  }

  /**
   * One cycle on the real objects: deploy the resources as the sort function hands
   * them on, then sweep; an error in the first part skips the second.
   */
  method Cycle(deployer: Deployer, collector: Collector, server: ApiServer, rendered: seq<Manifest>, r: Round)
    returns (ghost sweep: SweepRun)
    requires Regular(r) && Configured(collector.config) && Arranged(deployer.sortFn, rendered) == Ok(r.resources)
    requires Coherent(deployer.config, r.input.owner, deployer.WorldOf(server))
    modifies server, deployer.cache
    ensures var w, w' := old(deployer.WorldOf(server)), deployer.WorldOf(server);
            && Cycles(deployer.config, collector.config, w, r, sweep, w')
            && KeepsPromise(deployer.config, collector.config, w, r, sweep, w')
            && Coherent(deployer.config, r.input.owner, w')
  {
    hide DeployedAll, Coherent, Suffered, KeepsPromise, Configured, SweptClean, Sweeps, Undisturbed;
    ghost var w := deployer.WorldOf(server);
    var error := deployer.Deploy(server, r.input, rendered, r.turns);
    if error.Some? {
      sweep := Skipped;
    } else {
      server.Suffer(r.after);
      ghost var met := deployer.WorldOf(server);
      assert met == MetIn(deployer.config, w, r);
      MetCoherent(deployer.config, r.input, w, r.resources, r.turns, r.after);
      ValidWorld(deployer.config, r.input.owner, met);
      var result: Result<nat, GcError>;
      ghost var steps, gone;
      result, steps, gone := collector.Sweep(server, r.params, r.types, r.sweeping);
      sweep := Ran(steps, gone);
    }
    CycleKeepsPromise(deployer.config, collector.config, w, r, sweep, deployer.WorldOf(server));
  }
}
