/**
 * Which types the garbage collector sweeps: those a collection-wide delete is
 * granted for, with one API view chosen per RBAC kind served by two groups.
 */
module TypeSelection {
  import opened Options
  import opened Sorting
  import opened Ordering
  import Cluster

  datatype ApiResource = ApiResource(name: string, group: string, kind: string, namespaced: bool, verbs: seq<string>)

  datatype ApiResourceList = ApiResourceList(groupVersion: string, resources: seq<ApiResource>)

  datatype Rule = Rule(verbs: seq<string>, groups: seq<string>, resources: seq<string>, resourceNames: seq<string>)

  /** A served type; its resource and kind share group and version. */
  datatype ResourceType = ResourceType(group: string, version: string, resource: string, kind: string, namespaced: bool)

  const ANY := "*"
  const VERB_DELETE := "delete"
  const VERB_LIST := "list"

  // ----- permissions -----

  predicate Matches(group: string, name: string, rule: Rule) {
    && (exists g | g in rule.groups :: g == group || g == ANY)
    && (exists r | r in rule.resources :: r == name || r == ANY)
  }

  /** A rule without resource names grants the verb on the whole collection. */
  predicate Grants(rule: Rule, group: string, name: string, verb: string) {
    rule.resourceNames == [] && (verb in rule.verbs || ANY in rule.verbs) && Matches(group, name, rule)
  }

  predicate Granted(rules: seq<Rule>, group: string, name: string, verb: string) {
    exists rule | rule in rules :: Grants(rule, group, name, verb)
  }

  method IsResourceMatchingRule(group: string, name: string, rule: Rule) returns (matches: bool)
    ensures matches <==> Matches(group, name, rule)
  {
    for i := 0 to |rule.groups|
      invariant (exists g | g in rule.groups[..i] :: g == group || g == ANY) ==>
                  !exists r | r in rule.resources :: r == name || r == ANY
    {
      assert rule.groups[..i + 1] == rule.groups[..i] + [rule.groups[i]];
      if group != rule.groups[i] && rule.groups[i] != ANY {
        continue;
      }
      for j := 0 to |rule.resources|
        invariant forall r | r in rule.resources[..j] :: r != name && r != ANY
      {
        assert rule.resources[..j + 1] == rule.resources[..j] + [rule.resources[j]];
        if name == rule.resources[j] || rule.resources[j] == ANY {
          assert rule.groups[i] in rule.groups && rule.resources[j] in rule.resources;
          return true;
        }
      }
      assert rule.resources[..|rule.resources|] == rule.resources;
    }
    assert rule.groups[..|rule.groups|] == rule.groups;
    return false;
  }

  method HasPermissions(group: string, name: string, rules: seq<Rule>, verbs: seq<string>) returns (has: bool)
    ensures has <==> verbs != [] && forall v | v in verbs :: Granted(rules, group, name, v)
  {
    if |verbs| == 0 {
      return false;
    }
    for i := 0 to |verbs|
      invariant forall v | v in verbs[..i] :: Granted(rules, group, name, v)
    {
      assert verbs[..i + 1] == verbs[..i] + [verbs[i]];
      if !Granted(rules, group, name, verbs[i]) {
        assert verbs[i] in verbs;
        return false;
      }
    }
    assert verbs[..|verbs|] == verbs;
    return true;
  }

  // ----- authorized types -----

  function Supporting(verbs: seq<string>): ApiResource -> bool {
    (a: ApiResource) => forall v | v in verbs :: v in a.verbs
  }

  /** Discovery filtered by supported verbs; lists left without resources are dropped. */
  function Supported(verbs: seq<string>, lists: seq<ApiResourceList>): seq<ApiResourceList> {
    if lists == [] then []
    else
      var kept := Filter(Supporting(verbs), lists[0].resources);
      (if kept == [] then [] else [lists[0].(resources := kept)]) + Supported(verbs, lists[1..])
  }

  function PermissionGroup(a: ApiResource, listGroup: string): string {
    if a.group == "" then listGroup else a.group
  }

  function TypeOf(a: ApiResource, gv: (string, string)): ResourceType {
    ResourceType(gv.0, gv.1, a.name, a.kind, a.namespaced)
  }

  ghost predicate Offers(l: ApiResourceList, a: ApiResource, rules: seq<Rule>, verbs: seq<string>, t: ResourceType) {
    var gv := Cluster.ParseGroupVersion(l.groupVersion);
    && gv.Some? && t == TypeOf(a, gv.value)
    && verbs != [] && forall v | v in verbs :: Granted(rules, PermissionGroup(a, gv.value.0), a.name, v)
  }

  ghost predicate OffersAny(
      l: ApiResourceList, offered: seq<ApiResource>, rules: seq<Rule>, verbs: seq<string>, t: ResourceType)
  {
    exists a | a in offered :: Offers(l, a, rules, verbs, t)
  }

  /** Some discovered resource yields this type, every required verb on it being granted. */
  ghost predicate Authorized(lists: seq<ApiResourceList>, rules: seq<Rule>, verbs: seq<string>, t: ResourceType) {
    exists l | l in lists :: OffersAny(l, l.resources, rules, verbs, t)
  }

  function Printed(t: ResourceType): string {
    (if t.group == "" then t.version else t.group + "/" + t.version) + " Resource= " + t.resource + " Kind= " + t.kind
  }

  function ByPrint(): (ResourceType, ResourceType) -> bool {
    (x: ResourceType, y: ResourceType) => Leq(Printed(x), Printed(y))
  }

  lemma ByPrintIsTotal()
    ensures TotalPreorder(ByPrint())
  {
    StringOrderIsTotal();
    forall x: ResourceType, y: ResourceType ensures ByPrint()(x, y) || ByPrint()(y, x) {
      assert StringOrder()(Printed(x), Printed(y)) || StringOrder()(Printed(y), Printed(x));
    }
    forall x: ResourceType, y: ResourceType, z: ResourceType | ByPrint()(x, y) && ByPrint()(y, z)
      ensures ByPrint()(x, z)
    {
      LeqTransitive(Printed(x), Printed(y), Printed(z));
    }
  }

  /** One list's contribution to the set of allowed types. */
  method AllowedIn(
      l: ApiResourceList, gv: (string, string), rules: seq<Rule>, verbs: seq<string>, before: set<ResourceType>)
    returns (allowed: set<ResourceType>)
    requires Cluster.ParseGroupVersion(l.groupVersion) == Some(gv)
    ensures forall t :: t in allowed <==> t in before || OffersAny(l, l.resources, rules, verbs, t)
  {
    hide Granted;
    allowed := before;
    for i := 0 to |l.resources|
      invariant forall t :: t in allowed <==> t in before || OffersAny(l, l.resources[..i], rules, verbs, t)
    {
      assert l.resources[..i + 1] == l.resources[..i] + [l.resources[i]];
      assert forall x :: x in l.resources[..i + 1] <==> x in l.resources[..i] || x == l.resources[i];
      var a := l.resources[i];
      var group := a.group;
      if group == "" {
        group := gv.0;
      }
      var has := HasPermissions(group, a.name, rules, verbs);
      assert forall t :: Offers(l, a, rules, verbs, t) <==> has && t == TypeOf(a, gv);
      assert forall t :: OffersAny(l, l.resources[..i + 1], rules, verbs, t) <==>
                         OffersAny(l, l.resources[..i], rules, verbs, t) || Offers(l, a, rules, verbs, t);
      if !has {
        continue;
      }
      allowed := allowed + {TypeOf(a, gv)};
    }
    assert l.resources[..|l.resources|] == l.resources;
  }

  /**
   * The types every required verb is granted for, each once, in a fixed order; or
   * the first malformed group version.
   */
  method ComputeAuthorizedResources(lists: seq<ApiResourceList>, rules: seq<Rule>, verbs: seq<string>)
    returns (r: Result<seq<ResourceType>, string>)
    ensures r.Ok? <==> forall l | l in lists :: Cluster.ParseGroupVersion(l.groupVersion).Some?
    ensures r.Ok? ==> Distinct(r.value) && Sorted(ByPrint(), r.value)
    ensures r.Ok? ==> forall t :: t in r.value <==> Authorized(lists, rules, verbs, t)
  {
    hide OffersAny;
    var allowed: set<ResourceType> := {};
    for i := 0 to |lists|
      invariant forall l | l in lists[..i] :: Cluster.ParseGroupVersion(l.groupVersion).Some?
      invariant forall t :: t in allowed <==> Authorized(lists[..i], rules, verbs, t)
    {
      assert lists[..i + 1] == lists[..i] + [lists[i]];
      var gv := Cluster.ParseGroupVersion(lists[i].groupVersion);
      if gv.None? {
        assert lists[i] in lists;
        return Err(lists[i].groupVersion);
      }
      allowed := AllowedIn(lists[i], gv.value, rules, verbs, allowed);
    }
    assert lists[..|lists|] == lists;
    var keys := Keys(allowed);
    hide Authorized;
    ByPrintIsTotal();
    SortSorts(ByPrint(), keys);
    SortPermutes(ByPrint(), keys);
    SortKeepsMembers(ByPrint(), keys);
    DistinctPermutes(keys, StableSort(ByPrint(), keys));
    return Ok(StableSort(ByPrint(), keys));
  }

  /** The members of a set in some order. */
  method Keys(s: set<ResourceType>) returns (ks: seq<ResourceType>)
    ensures Distinct(ks) && forall t :: t in ks <==> t in s
  {
    var pending := s;
    ks := [];
    while pending != {}
      invariant pending <= s && Distinct(ks) && forall t :: t in ks <==> t in s && t !in pending
      decreases pending
    {
      var t :| t in pending;
      ks := ks + [t];
      pending := pending - {t};
    }
  }

  // ----- one view per aliased kind -----

  const KUBERNETES_RBAC := "rbac.authorization.k8s.io"
  const OPENSHIFT_AUTHORIZATION := "authorization.openshift.io"
  const ALIAS_KINDS := {"Role", "RoleBinding", "ClusterRole", "ClusterRoleBinding"}

  predicate IsView(t: ResourceType, group: string, kind: string) {
    t.group == group && t.kind == kind
  }

  predicate IsAlias(t: ResourceType) {
    (t.group == KUBERNETES_RBAC || t.group == OPENSHIFT_AUTHORIZATION) && t.kind in ALIAS_KINDS
  }

  /** An aliased kind served by a group. */
  predicate Serves(items: seq<ResourceType>, group: string, kind: string) {
    kind in ALIAS_KINDS && exists t | t in items :: IsView(t, group, kind)
  }

  predicate PrefersKubernetes(deletable: seq<ResourceType>, listable: seq<ResourceType>, kind: string) {
    Serves(deletable, KUBERNETES_RBAC, kind) && Serves(listable, KUBERNETES_RBAC, kind)
  }

  predicate PrefersOpenShift(deletable: seq<ResourceType>, listable: seq<ResourceType>, kind: string) {
    && Serves(deletable, KUBERNETES_RBAC, kind) && !Serves(listable, KUBERNETES_RBAC, kind)
    && Serves(deletable, OPENSHIFT_AUTHORIZATION, kind) && Serves(listable, OPENSHIFT_AUTHORIZATION, kind)
  }

  /** A type stays unless the other view of its kind is preferred. */
  predicate Stays(deletable: seq<ResourceType>, listable: seq<ResourceType>, t: ResourceType) {
    && !(t.group == OPENSHIFT_AUTHORIZATION && t.kind in ALIAS_KINDS && PrefersKubernetes(deletable, listable, t.kind))
    && !(t.group == KUBERNETES_RBAC && t.kind in ALIAS_KINDS && PrefersOpenShift(deletable, listable, t.kind))
  }

  function StaysIn(deletable: seq<ResourceType>, listable: seq<ResourceType>): ResourceType -> bool {
    (t: ResourceType) => Stays(deletable, listable, t)
  }

  function Preferred(deletable: seq<ResourceType>, listable: seq<ResourceType>): seq<ResourceType> {
    Filter(StaysIn(deletable, listable), deletable)
  }

  method AliasKindsInGroup(items: seq<ResourceType>, group: string) returns (kinds: set<string>)
    ensures forall k :: k in kinds <==> Serves(items, group, k)
  {
    kinds := {};
    for i := 0 to |items|
      invariant forall k :: k in kinds <==> Serves(items[..i], group, k)
    {
      assert items[..i + 1] == items[..i] + [items[i]];
      assert forall t :: t in items[..i + 1] <==> t in items[..i] || t == items[i];
      assert forall k :: Serves(items[..i + 1], group, k) <==>
                         Serves(items[..i], group, k) || (k in ALIAS_KINDS && IsView(items[i], group, k));
      if items[i].group != group {
        continue;
      }
      if items[i].kind in ALIAS_KINDS {
        kinds := kinds + {items[i].kind};
      }
    }
    assert items[..|items|] == items;
  }

  method PreferKubernetesRBACResources(deletable: seq<ResourceType>, listable: seq<ResourceType>)
    returns (r: seq<ResourceType>)
    ensures r == Preferred(deletable, listable)
  {
    var deletableKubernetes := AliasKindsInGroup(deletable, KUBERNETES_RBAC);
    if deletableKubernetes == {} {
      FilterAll(StaysIn(deletable, listable), deletable);
      return deletable;
    }
    var listableKubernetes := AliasKindsInGroup(listable, KUBERNETES_RBAC);
    var deletableOpenShift := AliasKindsInGroup(deletable, OPENSHIFT_AUTHORIZATION);
    var listableOpenShift := AliasKindsInGroup(listable, OPENSHIFT_AUTHORIZATION);
    var preferKubernetes, preferOpenShift :=
      ChooseViews(deletableKubernetes, listableKubernetes, deletableOpenShift, listableOpenShift);
    assert forall k :: k in preferKubernetes <==> PrefersKubernetes(deletable, listable, k);
    assert forall k :: k in preferOpenShift <==> PrefersOpenShift(deletable, listable, k);
    hide PrefersKubernetes, PrefersOpenShift;
    if preferKubernetes == {} && preferOpenShift == {} {
      FilterAll(StaysIn(deletable, listable), deletable);
      return deletable;
    }
    r := [];
    for i := 0 to |deletable|
      invariant r + Filter(StaysIn(deletable, listable), deletable[i..]) == Preferred(deletable, listable)
    {
      var t := deletable[i];
      assert deletable[i..][0] == t && deletable[i..][1..] == deletable[i + 1..];
      if t.group == OPENSHIFT_AUTHORIZATION && t.kind in ALIAS_KINDS {
        if t.kind in preferKubernetes {
          continue;
        }
      }
      if t.group == KUBERNETES_RBAC && t.kind in ALIAS_KINDS {
        if t.kind in preferOpenShift {
          continue;
        }
      }
      r := r + [t];
    }
  }

  /** The loop over the aliased kinds the Kubernetes group serves for deletion. */
  method ChooseViews(kd: set<string>, kl: set<string>, od: set<string>, ol: set<string>)
    returns (preferKubernetes: set<string>, preferOpenShift: set<string>)
    ensures preferKubernetes == kd * kl && preferOpenShift == (kd - kl) * od * ol
  {
    preferKubernetes, preferOpenShift := {}, {};
    var pending := kd;
    while pending != {}
      invariant pending <= kd
      invariant preferKubernetes == (kd - pending) * kl && preferOpenShift == ((kd - pending) - kl) * od * ol
      decreases pending
    {
      var kind :| kind in pending;
      pending := pending - {kind};
      if kind in kl {
        preferKubernetes := preferKubernetes + {kind};
        continue;
      }
      if kind in od && kind in ol {
        preferOpenShift := preferOpenShift + {kind};
      }
    }
  }

  // ----- laws -----

  /** Where the elements a filter keeps come from: the positions increase. */
  lemma {:induction false} FilterIsSublist(p: ResourceType -> bool, s: seq<ResourceType>) returns (at: seq<nat>)
    ensures |at| == |Filter(p, s)|
    ensures forall i | 0 <= i < |at| :: at[i] < |s| && Filter(p, s)[i] == s[at[i]]
    ensures forall i, j | 0 <= i < j < |at| :: at[i] < at[j]
  {
    if s == [] {
      return [];
    }
    var rest := FilterIsSublist(p, s[1..]);
    var shifted := seq(|rest|, i requires 0 <= i < |rest| => rest[i] + 1);
    at := if p(s[0]) then [0] + shifted else shifted;
  }

  /** Nothing but an aliased RBAC type is ever dropped, nothing is added, and what is kept keeps its order. */
  lemma OnlyAliasesAreDropped(deletable: seq<ResourceType>, listable: seq<ResourceType>) returns (at: seq<nat>)
    ensures var r := Preferred(deletable, listable);
            && |at| == |r| && (forall i | 0 <= i < |r| :: at[i] < |deletable| && r[i] == deletable[at[i]])
            && (forall i, j | 0 <= i < j < |at| :: at[i] < at[j])
            && (forall t | t in r :: t in deletable)
            && (forall t | t in deletable && !IsAlias(t) :: t in r)
    ensures Distinct(deletable) ==> Distinct(Preferred(deletable, listable))
  {
    at := FilterIsSublist(StaysIn(deletable, listable), deletable);
    FilterMembers(StaysIn(deletable, listable), deletable);
    if Distinct(deletable) {
      FilterKeepsDistinctTypes(StaysIn(deletable, listable), deletable);
    }
  }

  lemma {:induction false} FilterKeepsDistinctTypes(p: ResourceType -> bool, s: seq<ResourceType>)
    requires Distinct(s)
    ensures Distinct(Filter(p, s))
  {
    if s != [] {
      FilterKeepsDistinctTypes(p, s[1..]);
      FilterMembers(p, s[1..]);
      assert s[0] !in s[1..];
    }
  }

  /** Never both: a kind with a deletable view keeps one, and all of the views it loses are of the other group. */
  lemma SomeViewStays(deletable: seq<ResourceType>, listable: seq<ResourceType>, t: ResourceType)
    requires t in deletable && IsAlias(t)
    ensures exists u | u in Preferred(deletable, listable) :: IsAlias(u) && u.kind == t.kind
    ensures t !in Preferred(deletable, listable) ==>
              exists u | u in Preferred(deletable, listable) :: IsAlias(u) && u.kind == t.kind && u.group != t.group
  {
    FilterMembers(StaysIn(deletable, listable), deletable);
    if !Stays(deletable, listable, t) {
      var other := if t.group == KUBERNETES_RBAC then OPENSHIFT_AUTHORIZATION else KUBERNETES_RBAC;
      var u :| u in deletable && IsView(u, other, t.kind);
      assert Stays(deletable, listable, u);
    } else {
      assert t in Preferred(deletable, listable);
    }
  }

  /** A group whose view of the kind works: it is there to delete and there to list. */
  predicate Works(deletable: seq<ResourceType>, listable: seq<ResourceType>, group: string, kind: string) {
    Serves(deletable, group, kind) && Serves(listable, group, kind)
  }

  /**
   * Whenever a group's view works, one that works is kept and no other:
   * Kubernetes first, else OpenShift unless it is alone.
   */
  lemma WorkingViewIsChosen(deletable: seq<ResourceType>, listable: seq<ResourceType>, kind: string)
    requires || Works(deletable, listable, KUBERNETES_RBAC, kind)
             || Works(deletable, listable, OPENSHIFT_AUTHORIZATION, kind)
    ensures var chosen := if Works(deletable, listable, KUBERNETES_RBAC, kind) then KUBERNETES_RBAC
              else OPENSHIFT_AUTHORIZATION;
            forall t :: t in Preferred(deletable, listable) && IsAlias(t) && t.kind == kind <==>
                        t in deletable && IsView(t, chosen, kind)
  {
    FilterMembers(StaysIn(deletable, listable), deletable);
    if !Works(deletable, listable, KUBERNETES_RBAC, kind) {
      assert forall t | t in deletable && IsView(t, KUBERNETES_RBAC, kind) :: !Stays(deletable, listable, t);
    }
  }

  /** A type that can be both deleted and listed. */
  predicate Usable(deletable: seq<ResourceType>, listable: seq<ResourceType>, group: string, kind: string) {
    exists t | t in deletable && t in listable :: IsView(t, group, kind)
  }

  /**
   * The choice goes by kind, not by version. A usable type of the kind is kept
   * whenever there is one, exactly unless Kubernetes serves one version to
   * delete and only another to list while an OpenShift type is usable.
   */
  lemma UsableTypeIsKeptExactlyWhen(deletable: seq<ResourceType>, listable: seq<ResourceType>, kind: string)
    requires kind in ALIAS_KINDS
    requires || Usable(deletable, listable, KUBERNETES_RBAC, kind)
             || Usable(deletable, listable, OPENSHIFT_AUTHORIZATION, kind)
    ensures (exists t | t in Preferred(deletable, listable) && t in listable :: IsAlias(t) && t.kind == kind) <==>
            !(Works(deletable, listable, KUBERNETES_RBAC, kind) && !Usable(deletable, listable, KUBERNETES_RBAC, kind))
  {
    FilterMembers(StaysIn(deletable, listable), deletable);
    var r := Preferred(deletable, listable);
    if Usable(deletable, listable, KUBERNETES_RBAC, kind) {
      var t :| t in deletable && t in listable && IsView(t, KUBERNETES_RBAC, kind);
      assert Stays(deletable, listable, t);
      assert t in r && t in listable && IsAlias(t) && t.kind == kind;
    } else {
      var t :| t in deletable && t in listable && IsView(t, OPENSHIFT_AUTHORIZATION, kind);
      if Works(deletable, listable, KUBERNETES_RBAC, kind) {
        WorkingViewIsChosen(deletable, listable, kind);
      } else {
        assert Stays(deletable, listable, t);
        assert t in r && t in listable && IsAlias(t) && t.kind == kind;
      }
    }
  }

  /** Choosing again changes nothing: what was chosen is its own choice. */
  lemma ChoiceIsStable(deletable: seq<ResourceType>, listable: seq<ResourceType>)
    ensures Preferred(Preferred(deletable, listable), listable) == Preferred(deletable, listable)
  {
    var r := Preferred(deletable, listable);
    FilterMembers(StaysIn(deletable, listable), deletable);
    forall t | t in r ensures Stays(r, listable, t) {
      assert Stays(deletable, listable, t);
      if t.kind in ALIAS_KINDS && PrefersKubernetes(r, listable, t.kind) {
        assert PrefersKubernetes(deletable, listable, t.kind);
      }
      if t.kind in ALIAS_KINDS && PrefersOpenShift(r, listable, t.kind) {
        assert PrefersOpenShift(deletable, listable, t.kind);
      }
    }
    FilterAll(StaysIn(r, listable), r);
  }

  // ----- selectDeletableTypes -----

  ghost predicate Parses(lists: seq<ApiResourceList>) {
    forall l | l in lists :: Cluster.ParseGroupVersion(l.groupVersion).Some?
  }

  method SelectDeletableTypes(apis: seq<ApiResourceList>, rules: seq<Rule>)
    returns (r: Result<seq<ResourceType>, string>)
    ensures r.Ok? <==> Parses(Supported([VERB_DELETE], apis)) && Parses(Supported([VERB_LIST], apis))
    ensures r.Ok? ==> exists deletable, listable ::
                        && r.value == Preferred(deletable, listable) && Distinct(r.value)
                        && (forall t :: t in deletable <==>
                            Authorized(Supported([VERB_DELETE], apis), rules, [VERB_DELETE], t))
                        && (forall t :: t in listable <==>
                            Authorized(Supported([VERB_LIST], apis), rules, [VERB_LIST], t))
    ensures r.Ok? ==> forall t | t in r.value :: Authorized(Supported([VERB_DELETE], apis), rules, [VERB_DELETE], t)
    ensures r.Err? <==> Malformed(apis, "delete") || Malformed(apis, "list")
    ensures r.Ok? ==> forall t :: t in r.value <==> Chosen(apis, rules, t)
  {
    ParsesExactlyWhen(apis, VERB_DELETE);
    ParsesExactlyWhen(apis, VERB_LIST);
    var deletable := ComputeAuthorizedResources(Supported([VERB_DELETE], apis), rules, [VERB_DELETE]);
    hide Authorized, Supported, Preferred, Chosen, Malformed;
    if deletable.Err? {
      return Err(deletable.error);
    }
    var listable := ComputeAuthorizedResources(Supported([VERB_LIST], apis), rules, [VERB_LIST]);
    if listable.Err? {
      return Err(listable.error);
    }
    var chosen := PreferKubernetesRBACResources(deletable.value, listable.value);
    var _ := OnlyAliasesAreDropped(deletable.value, listable.value);
    forall t ensures t in chosen <==> Chosen(apis, rules, t) {
      PreferredIsChosen(apis, rules, deletable.value, listable.value, t);
    }
    return Ok(chosen);
  }

  // ----- the selection, from discovery and permissions alone -----

  /** A rule without resource names grants the verb on this resource of this group. */
  predicate Permits(rule: Rule, group: string, name: string, verb: string) {
    && rule.resourceNames == []
    && (verb in rule.verbs || "*" in rule.verbs)
    && (group in rule.groups || "*" in rule.groups)
    && (name in rule.resources || "*" in rule.resources)
  }

  /**
   * A discovered resource of the list that supports the verb and on which it is
   * granted: under the group it states itself, or else the group of the list.
   */
  predicate Yields(l: ApiResourceList, a: ApiResource, rules: seq<Rule>, verb: string, t: ResourceType) {
    var gv := Cluster.ParseGroupVersion(l.groupVersion);
    && gv.Some? && verb in a.verbs
    && t.group == gv.value.0 && t.version == gv.value.1
    && t.resource == a.name && t.kind == a.kind && t.namespaced == a.namespaced
    && exists rule | rule in rules :: Permits(rule, if a.group != "" then a.group else gv.value.0, a.name, verb)
  }

  ghost predicate Allowed(apis: seq<ApiResourceList>, rules: seq<Rule>, verb: string, t: ResourceType) {
    exists l, a | l in apis && a in l.resources :: Yields(l, a, rules, verb, t)
  }

  /** A list that is looked at for the verb and does not parse. */
  ghost predicate Malformed(apis: seq<ApiResourceList>, verb: string) {
    exists l, a | l in apis && a in l.resources && verb in a.verbs :: Cluster.ParseGroupVersion(l.groupVersion).None?
  }

  /** The group serves an aliased kind under some type that is allowed the verb. */
  ghost predicate Offering(apis: seq<ApiResourceList>, rules: seq<Rule>, verb: string, group: string, kind: string) {
    exists t :: Allowed(apis, rules, verb, t) && t.group == group && t.kind == kind
  }

  /**
   * The view of an aliased kind that gives way: that of OpenShift where Kubernetes
   * can be deleted and listed, that of Kubernetes where it cannot be listed and
   * OpenShift can be deleted and listed.
   */
  ghost predicate GivesWay(apis: seq<ApiResourceList>, rules: seq<Rule>, t: ResourceType) {
    var kubernetes, openshift := "rbac.authorization.k8s.io", "authorization.openshift.io";
    && t.kind in {"Role", "RoleBinding", "ClusterRole", "ClusterRoleBinding"}
    && Offering(apis, rules, "delete", kubernetes, t.kind)
    && (|| (&& t.group == openshift && Offering(apis, rules, "list", kubernetes, t.kind))
        || (&& t.group == kubernetes && !Offering(apis, rules, "list", kubernetes, t.kind)
            && Offering(apis, rules, "delete", openshift, t.kind) && Offering(apis, rules, "list", openshift, t.kind)))
  }

  /** What is swept. */
  ghost predicate Chosen(apis: seq<ApiResourceList>, rules: seq<Rule>, t: ResourceType) {
    Allowed(apis, rules, "delete", t) && !GivesWay(apis, rules, t)
  }

  lemma {:induction false} SupportedLists(verb: string, apis: seq<ApiResourceList>, l: ApiResourceList, a: ApiResource)
    ensures a in l.resources && l in Supported([verb], apis) ==>
              verb in a.verbs && exists k | k in apis :: k.groupVersion == l.groupVersion && a in k.resources
    ensures l in apis && a in l.resources && verb in a.verbs ==>
              exists k | k in Supported([verb], apis) :: k.groupVersion == l.groupVersion && a in k.resources
  {
    if apis != [] {
      var kept := Filter(Supporting([verb]), apis[0].resources);
      FilterMembers(Supporting([verb]), apis[0].resources);
      assert Supporting([verb])(a) <==> verb in a.verbs;
      SupportedLists(verb, apis[1..], l, a);
      var rest := Supported([verb], apis[1..]);
      assert Supported([verb], apis) == (if kept == [] then [] else [apis[0].(resources := kept)]) + rest;
      assert forall k :: k in apis <==> k == apis[0] || k in apis[1..];
      hide Supported, Supporting, Filter;
      if a in l.resources && l in Supported([verb], apis) && l !in rest {
        assert apis[0] in apis && apis[0].groupVersion == l.groupVersion && a in apis[0].resources;
      }
      if l == apis[0] && a in l.resources && verb in a.verbs {
        assert a in kept;
        var k := apis[0].(resources := kept);
        assert k in Supported([verb], apis) && k.groupVersion == l.groupVersion && a in k.resources;
      }
    }
  }

  lemma {:induction false} SupportedAreNotEmpty(verb: string, apis: seq<ApiResourceList>)
    ensures forall l | l in Supported([verb], apis) :: l.resources != []
  {
    if apis != [] {
      SupportedAreNotEmpty(verb, apis[1..]);
    }
  }

  lemma GrantsExactlyWhen(rule: Rule, group: string, name: string, verb: string)
    ensures Grants(rule, group, name, verb) <==> Permits(rule, group, name, verb)
  {
  }

  lemma OffersExactlyWhen(l: ApiResourceList, a: ApiResource, rules: seq<Rule>, verb: string, t: ResourceType)
    requires verb in a.verbs
    ensures Offers(l, a, rules, [verb], t) <==> Yields(l, a, rules, verb, t)
  {
    hide Grants, Permits;
    forall rule, group, name { GrantsExactlyWhen(rule, group, name, verb); }
    assert verb in [verb];
  }

  /** Authorized among the supported resources is allowed by discovery and permissions. */
  lemma AuthorizedExactlyWhen(apis: seq<ApiResourceList>, rules: seq<Rule>, verb: string, t: ResourceType)
    ensures Authorized(Supported([verb], apis), rules, [verb], t) <==> Allowed(apis, rules, verb, t)
  {
    hide Supported, Offers, Granted;
    if Authorized(Supported([verb], apis), rules, [verb], t) {
      var l :| l in Supported([verb], apis) && OffersAny(l, l.resources, rules, [verb], t);
      var a :| a in l.resources && Offers(l, a, rules, [verb], t);
      SupportedLists(verb, apis, l, a);
      var k :| k in apis && k.groupVersion == l.groupVersion && a in k.resources;
      SameVersionOffers(l, k, a, rules, verb, t);
      OffersExactlyWhen(k, a, rules, verb, t);
    }
    if Allowed(apis, rules, verb, t) {
      var l, a :| l in apis && a in l.resources && Yields(l, a, rules, verb, t);
      OffersExactlyWhen(l, a, rules, verb, t);
      SupportedLists(verb, apis, l, a);
      var k :| k in Supported([verb], apis) && k.groupVersion == l.groupVersion && a in k.resources;
      SameVersionOffers(l, k, a, rules, verb, t);
      assert OffersAny(k, k.resources, rules, [verb], t);
    }
  }

  lemma SameVersionOffers(
      l: ApiResourceList, k: ApiResourceList, a: ApiResource, rules: seq<Rule>, verb: string, t: ResourceType)
    requires k.groupVersion == l.groupVersion
    ensures Offers(l, a, rules, [verb], t) <==> Offers(k, a, rules, [verb], t)
  {
  }

  lemma ParsesExactlyWhen(apis: seq<ApiResourceList>, verb: string)
    ensures Parses(Supported([verb], apis)) <==> !Malformed(apis, verb)
  {
    SupportedAreNotEmpty(verb, apis);
    hide Supported;
    if Malformed(apis, verb) {
      var l, a :| l in apis && a in l.resources && verb in a.verbs && Cluster.ParseGroupVersion(l.groupVersion).None?;
      SupportedLists(verb, apis, l, a);
    }
    if l :| l in Supported([verb], apis) && Cluster.ParseGroupVersion(l.groupVersion).None? {
      var a := l.resources[0];
      SupportedLists(verb, apis, l, a);
      var k :| k in apis && k.groupVersion == l.groupVersion && a in k.resources;
    }
  }

  /** The method's choice is the one described here. */
  lemma PreferredIsChosen(
      apis: seq<ApiResourceList>, rules: seq<Rule>, deletable: seq<ResourceType>, listable: seq<ResourceType>,
      t: ResourceType)
    requires forall u :: u in deletable <==> Authorized(Supported([VERB_DELETE], apis), rules, [VERB_DELETE], u)
    requires forall u :: u in listable <==> Authorized(Supported([VERB_LIST], apis), rules, [VERB_LIST], u)
    ensures t in Preferred(deletable, listable) <==> Chosen(apis, rules, t)
  {
    hide Authorized, Supported, Allowed, Stays, GivesWay, Filter;
    FilterMembers(StaysIn(deletable, listable), deletable);
    assert StaysIn(deletable, listable)(t) <==> Stays(deletable, listable, t);
    forall u
      ensures u in deletable <==> Allowed(apis, rules, "delete", u)
      ensures u in listable <==> Allowed(apis, rules, "list", u)
    {
      AuthorizedExactlyWhen(apis, rules, "delete", u);
      AuthorizedExactlyWhen(apis, rules, "list", u);
    }
    StaysExactlyWhen(apis, rules, deletable, listable, t);
  }

  lemma StaysExactlyWhen(
      apis: seq<ApiResourceList>, rules: seq<Rule>, deletable: seq<ResourceType>, listable: seq<ResourceType>,
      t: ResourceType)
    requires forall u :: u in deletable <==> Allowed(apis, rules, "delete", u)
    requires forall u :: u in listable <==> Allowed(apis, rules, "list", u)
    ensures Stays(deletable, listable, t) <==> !GivesWay(apis, rules, t)
  {
    hide Allowed, Serves, Offering;
    if t.kind in ALIAS_KINDS {
      ServesExactlyWhen(apis, rules, "delete", deletable, t.kind);
      ServesExactlyWhen(apis, rules, "list", listable, t.kind);
    }
  }

  lemma ServesExactlyWhen(
      apis: seq<ApiResourceList>, rules: seq<Rule>, verb: string, items: seq<ResourceType>, kind: string)
    requires kind in ALIAS_KINDS && forall u :: u in items <==> Allowed(apis, rules, verb, u)
    ensures Serves(items, KUBERNETES_RBAC, kind) <==> Offering(apis, rules, verb, "rbac.authorization.k8s.io", kind)
    ensures Serves(items, OPENSHIFT_AUTHORIZATION, kind) <==>
              Offering(apis, rules, verb, "authorization.openshift.io", kind)
  {
    hide Allowed;
    forall group ensures Serves(items, group, kind) <==> Offering(apis, rules, verb, group, kind) {
      if Serves(items, group, kind) {
        var t :| t in items && IsView(t, group, kind);
        assert Allowed(apis, rules, verb, t);
      }
      if Offering(apis, rules, verb, group, kind) {
        var t :| Allowed(apis, rules, verb, t) && t.group == group && t.kind == kind;
        assert t in items && IsView(t, group, kind);
      }
    }
  }
}
