/** Putting certificate issuers and certificates in front of the workloads and webhooks that need them. */
module CertManagerOrder {
  import opened Sorting
  import opened Cluster

  datatype Resource = Resource(gvk: GroupVersionKind, namespace: string, name: string, body: map<Path, string>)

  const CLUSTER_ISSUER := GroupVersionKind("cert-manager.io", "v1", "ClusterIssuer")
  const ISSUER := GroupVersionKind("cert-manager.io", "v1", "Issuer")
  const CERTIFICATE := GroupVersionKind("cert-manager.io", "v1", "Certificate")

  predicate IsCertManagerKind(g: GroupVersionKind) {
    g == CLUSTER_ISSUER || g == ISSUER || g == CERTIFICATE
  }

  predicate IsWorkloadKind(g: GroupVersionKind) {
    || g == GroupVersionKind("apps", "v1", "Deployment")
    || g == GroupVersionKind("apps", "v1", "StatefulSet")
    || g == GroupVersionKind("apps", "v1", "DaemonSet")
    || g == GroupVersionKind("batch", "v1", "Job")
    || g == GroupVersionKind("batch", "v1", "CronJob")
  }

  predicate IsWebhookKind(g: GroupVersionKind) {
    || g == GroupVersionKind("admissionregistration.k8s.io", "v1", "MutatingWebhookConfiguration")
    || g == GroupVersionKind("admissionregistration.k8s.io", "v1", "ValidatingWebhookConfiguration")
    || g == GroupVersionKind("admissionregistration.k8s.io", "v1", "ValidatingAdmissionPolicy")
    || g == GroupVersionKind("admissionregistration.k8s.io", "v1", "ValidatingAdmissionPolicyBinding")
  }

  predicate Waits(r: Resource) {
    IsWorkloadKind(r.gvk) || IsWebhookKind(r.gvk)
  }

  function CertManager(): Resource -> bool {
    (r: Resource) => IsCertManagerKind(r.gvk)
  }

  function Other(): Resource -> bool {
    (r: Resource) => !IsCertManagerKind(r.gvk)
  }

  function OfKind(g: GroupVersionKind): Resource -> bool {
    (r: Resource) => r.gvk == g
  }

  /** Issuers of the cluster, issuers, certificates; each kind in its own order. */
  function Block(rs: seq<Resource>): seq<Resource> {
    Filter(OfKind(CLUSTER_ISSUER), rs) + Filter(OfKind(ISSUER), rs) + Filter(OfKind(CERTIFICATE), rs)
  }

  /** How many leading resources wait for nothing. */
  function Leading(rs: seq<Resource>): (n: nat)
    ensures n <= |rs|
  {
    if rs == [] || Waits(rs[0]) then 0 else Leading(rs[1..]) + 1
  }

  function Reordered(rs: seq<Resource>): seq<Resource> {
    var others := Filter(Other(), rs);
    if Filter(CertManager(), rs) == [] then rs
    else others[..Leading(others)] + Block(rs) + others[Leading(others)..]
  }

  /** The kinds that are moved, and those they are moved in front of. */
  lemma KindsSay(g: GroupVersionKind)
    ensures IsCertManagerKind(g) <==>
            g.group == "cert-manager.io" && g.version == "v1" && g.kind in {"ClusterIssuer", "Issuer", "Certificate"}
    ensures IsWorkloadKind(g) <==>
            && g.version == "v1"
            && ((g.group == "apps" && g.kind in {"Deployment", "StatefulSet", "DaemonSet"})
                || (g.group == "batch" && g.kind in {"Job", "CronJob"}))
    ensures IsWebhookKind(g) <==>
            && g.group == "admissionregistration.k8s.io" && g.version == "v1"
            && g.kind in {"MutatingWebhookConfiguration", "ValidatingWebhookConfiguration",
                          "ValidatingAdmissionPolicy", "ValidatingAdmissionPolicyBinding"}
  {
  }

  // ----- the post-renderer -----

  method Partition(rs: seq<Resource>) returns (certs: seq<Resource>, others: seq<Resource>)
    ensures certs == Filter(CertManager(), rs) && others == Filter(Other(), rs)
  {
    certs, others := [], [];
    for i := 0 to |rs|
      invariant certs + Filter(CertManager(), rs[i..]) == Filter(CertManager(), rs)
      invariant others + Filter(Other(), rs[i..]) == Filter(Other(), rs)
    {
      assert rs[i..][0] == rs[i] && rs[i..][1..] == rs[i + 1..];
      if IsCertManagerKind(rs[i].gvk) {
        certs := certs + [rs[i]];
      } else {
        others := others + [rs[i]];
      }
    }
  }

  method InsertIndex(others: seq<Resource>) returns (at: nat)
    ensures at == Leading(others)
  {
    for i := 0 to |others|
      invariant i + Leading(others[i..]) == Leading(others)
    {
      assert others[i..][0] == others[i] && others[i..][1..] == others[i + 1..];
      if Waits(others[i]) {
        return i;
      }
    }
    return |others|;
  }

  method AppendOfKind(result: seq<Resource>, certs: seq<Resource>, target: GroupVersionKind) returns (r: seq<Resource>)
    ensures r == result + Filter(OfKind(target), certs)
  {
    r := result;
    for i := 0 to |certs|
      invariant r + Filter(OfKind(target), certs[i..]) == result + Filter(OfKind(target), certs)
    {
      assert certs[i..][0] == certs[i] && certs[i..][1..] == certs[i + 1..];
      if certs[i].gvk == target {
        r := r + [certs[i]];
      }
    }
  }

  /** The loop over the target kinds, in dependency order. */
  method AppendBlock(result: seq<Resource>, certs: seq<Resource>) returns (r: seq<Resource>)
    ensures r == result + Block(certs)
  {
    hide Filter;
    r := result;
    var targets := [CLUSTER_ISSUER, ISSUER, CERTIFICATE];
    ghost var parts := seq(3, k requires 0 <= k < 3 => Filter(OfKind(targets[k]), certs));
    for i := 0 to |targets|
      invariant r == result + if i == 0 then [] else if i == 1 then parts[0]
                              else if i == 2 then parts[0] + parts[1] else parts[0] + parts[1] + parts[2]
    {
      r := AppendOfKind(r, certs, targets[i]);
      assert Filter(OfKind(targets[i]), certs) == parts[i];
    }
  }

  method CertManagerPostRenderer(objects: seq<Resource>) returns (result: seq<Resource>)
    ensures result == Reordered(objects)
  {
    if |objects| == 0 {
      return objects;
    }
    var certs, others := Partition(objects);
    if |certs| == 0 {
      return objects;
    }
    hide Filter, Block, Leading;
    var at := InsertIndex(others);
    result := AppendBlock(others[..at], certs);
    BlockOfCerts(objects);
    result := result + others[at..];
  }

  lemma BlockOfCerts(rs: seq<Resource>)
    ensures Block(Filter(CertManager(), rs)) == Block(rs)
  {
    FilterTwice(OfKind(CLUSTER_ISSUER), CertManager(), OfKind(CLUSTER_ISSUER), rs);
    FilterTwice(OfKind(ISSUER), CertManager(), OfKind(ISSUER), rs);
    FilterTwice(OfKind(CERTIFICATE), CertManager(), OfKind(CERTIFICATE), rs);
  }

  // ----- what it promises -----

  lemma {:induction false} LeadingIsMaximal(rs: seq<Resource>)
    ensures forall i | 0 <= i < Leading(rs) :: !Waits(rs[i])
    ensures Leading(rs) < |rs| ==> Waits(rs[Leading(rs)])
  {
    if rs != [] && !Waits(rs[0]) {
      LeadingIsMaximal(rs[1..]);
      assert forall i | 0 < i < Leading(rs) :: rs[i] == rs[1..][i - 1];
    }
  }

  lemma {:induction false} LeadingUnique(pre: seq<Resource>, post: seq<Resource>)
    requires forall r | r in pre :: !Waits(r)
    requires post != [] ==> Waits(post[0])
    ensures Leading(pre + post) == |pre|
  {
    if pre == [] {
      assert pre + post == post;
    } else {
      assert pre[0] in pre && (pre + post)[1..] == pre[1..] + post;
      LeadingUnique(pre[1..], post);
    }
  }

  /** One contiguous block, issuers first, everything that waits for it behind. */
  ghost predicate InPlace(r: seq<Resource>, pre: seq<Resource>, post: seq<Resource>) {
    && r == pre + Block(r) + post
    && (forall x | x in pre :: !IsCertManagerKind(x.gvk) && !Waits(x))
    && (forall x | x in post :: !IsCertManagerKind(x.gvk))
    && (post != [] ==> Waits(post[0]))
  }

  lemma BlockMembers(rs: seq<Resource>)
    ensures forall x | x in Block(rs) :: IsCertManagerKind(x.gvk)
  {
    hide Filter;
    FilterMembers(OfKind(CLUSTER_ISSUER), rs);
    FilterMembers(OfKind(ISSUER), rs);
    FilterMembers(OfKind(CERTIFICATE), rs);
  }

  lemma BlockIsCertManager(rs: seq<Resource>)
    ensures forall x | x in Block(rs) :: IsCertManagerKind(x.gvk)
    ensures Filter(CertManager(), rs) == [] ==> Block(rs) == []
    ensures Block(Block(rs)) == Block(rs)
  {
    BlockMembers(rs);
    BlockOfCerts(rs);
    KindOfBlock(CLUSTER_ISSUER, rs);
    KindOfBlock(ISSUER, rs);
    KindOfBlock(CERTIFICATE, rs);
  }

  /** Within its kind every resource keeps its place. */
  lemma KindOfBlock(g: GroupVersionKind, rs: seq<Resource>)
    requires IsCertManagerKind(g)
    ensures Filter(OfKind(g), Block(rs)) == Filter(OfKind(g), rs)
  {
    var a, b, c := Filter(OfKind(CLUSTER_ISSUER), rs), Filter(OfKind(ISSUER), rs), Filter(OfKind(CERTIFICATE), rs);
    FilterMembers(OfKind(CLUSTER_ISSUER), rs);
    FilterMembers(OfKind(ISSUER), rs);
    FilterMembers(OfKind(CERTIFICATE), rs);
    FilterAppend(OfKind(g), a + b, c);
    FilterAppend(OfKind(g), a, b);
    PureKind(g, CLUSTER_ISSUER, a);
    PureKind(g, ISSUER, b);
    PureKind(g, CERTIFICATE, c);
  }

  lemma PureKind(g: GroupVersionKind, h: GroupVersionKind, rs: seq<Resource>)
    requires forall r | r in rs :: r.gvk == h
    ensures Filter(OfKind(g), rs) == if g == h then rs else []
  {
    if g == h {
      FilterAll(OfKind(g), rs);
    } else {
      FilterNone(OfKind(g), rs);
    }
  }

  lemma {:induction false} FilterSplits(p: Resource -> bool, q: Resource -> bool, s: seq<Resource>)
    requires forall x | x in s :: q(x) == !p(x)
    ensures multiset(s) == multiset(Filter(p, s)) + multiset(Filter(q, s))
  {
    if s != [] {
      FilterSplits(p, q, s[1..]);
      assert s == [s[0]] + s[1..];
    }
  }

  lemma BlockHoldsCertManager(rs: seq<Resource>)
    ensures multiset(Block(rs)) == multiset(Filter(CertManager(), rs))
  {
    var certs := Filter(CertManager(), rs);
    FilterMembers(CertManager(), rs);
    BlockOfCerts(rs);
    var notCluster := (r: Resource) => r.gvk != CLUSTER_ISSUER;
    FilterSplits(OfKind(CLUSTER_ISSUER), notCluster, certs);
    var rest := Filter(notCluster, certs);
    FilterMembers(notCluster, certs);
    FilterSplits(OfKind(ISSUER), OfKind(CERTIFICATE), rest);
    FilterTwice(OfKind(ISSUER), notCluster, OfKind(ISSUER), certs);
    FilterTwice(OfKind(CERTIFICATE), notCluster, OfKind(CERTIFICATE), certs);
  }

  lemma FilterOfParts(p: Resource -> bool, pre: seq<Resource>, mid: seq<Resource>, post: seq<Resource>)
    ensures Filter(p, pre + mid + post) == Filter(p, pre) + Filter(p, mid) + Filter(p, post)
  {
    FilterAppend(p, pre + mid, post);
    FilterAppend(p, pre, mid);
  }

  /** The three parts of a list that has something to place. */
  lemma Parts(rs: seq<Resource>) returns (pre: seq<Resource>, post: seq<Resource>)
    requires Filter(CertManager(), rs) != []
    ensures Reordered(rs) == pre + Block(rs) + post && pre + post == Filter(Other(), rs)
    ensures forall x | x in pre :: !IsCertManagerKind(x.gvk) && !Waits(x)
    ensures forall x | x in post :: !IsCertManagerKind(x.gvk)
    ensures post != [] ==> Waits(post[0])
  {
    hide Block, Filter, IsCertManagerKind, Waits;
    var others := Filter(Other(), rs);
    pre, post := others[..Leading(others)], others[Leading(others)..];
    FilterMembers(Other(), rs);
    LeadingIsMaximal(others);
    hide Leading;
    assert forall x | x in pre :: x in others;
    assert forall x | x in post :: x in others;
  }

  lemma NothingIsLost(rs: seq<Resource>)
    ensures multiset(Reordered(rs)) == multiset(rs)
  {
    if Filter(CertManager(), rs) != [] {
      var pre, post := Parts(rs);
      hide *;
      FilterSplits(CertManager(), Other(), rs);
      BlockHoldsCertManager(rs);
      assert multiset(pre + post) == multiset(pre) + multiset(post);
    }
  }

  lemma OthersKeepOrder(rs: seq<Resource>)
    ensures Filter(Other(), Reordered(rs)) == Filter(Other(), rs)
  {
    hide Filter, Block, IsCertManagerKind, Waits;
    if Filter(CertManager(), rs) != [] {
      hide Reordered;
      var pre, post := Parts(rs);
      BlockMembers(rs);
      FilterOfParts(Other(), pre, Block(rs), post);
      FilterAll(Other(), pre);
      FilterAll(Other(), post);
      FilterNone(Other(), Block(rs));
      assert pre + [] + post == pre + post;
    }
  }

  lemma KindKeepsOrder(g: GroupVersionKind, rs: seq<Resource>)
    requires IsCertManagerKind(g)
    ensures Filter(OfKind(g), Reordered(rs)) == Filter(OfKind(g), rs)
  {
    if Filter(CertManager(), rs) != [] {
      var pre, post := Parts(rs);
      hide *;
      FilterOfParts(OfKind(g), pre, Block(rs), post);
      FilterNone(OfKind(g), pre);
      FilterNone(OfKind(g), post);
      KindOfBlock(g, rs);
    }
  }

  /** Nothing is lost or duplicated; other resources, and each kind by itself, keep their relative order. */
  lemma ReorderingConserves(rs: seq<Resource>)
    ensures multiset(Reordered(rs)) == multiset(rs)
    ensures Filter(Other(), Reordered(rs)) == Filter(Other(), rs)
    ensures forall g | IsCertManagerKind(g) :: Filter(OfKind(g), Reordered(rs)) == Filter(OfKind(g), rs)
  {
    hide *;
    NothingIsLost(rs);
    OthersKeepOrder(rs);
    forall g | IsCertManagerKind(g) ensures Filter(OfKind(g), Reordered(rs)) == Filter(OfKind(g), rs) {
      KindKeepsOrder(g, rs);
    }
  }

  lemma SameKindsSameBlock(r: seq<Resource>, rs: seq<Resource>)
    requires forall g | IsCertManagerKind(g) :: Filter(OfKind(g), r) == Filter(OfKind(g), rs)
    ensures Block(r) == Block(rs)
  {
    hide Filter;
    assert IsCertManagerKind(CLUSTER_ISSUER) && IsCertManagerKind(ISSUER) && IsCertManagerKind(CERTIFICATE);
  }

  /** The block is whole, ordered and in front of everything that waits, as soon as there is anything to place. */
  lemma BlockIsInPlace(rs: seq<Resource>) returns (pre: seq<Resource>, post: seq<Resource>)
    requires Filter(CertManager(), rs) != []
    ensures InPlace(Reordered(rs), pre, post)
  {
    hide Filter, Reordered, Block, IsCertManagerKind, Waits;
    pre, post := Parts(rs);
    ReorderingConserves(rs);
    SameKindsSameBlock(Reordered(rs), rs);
  }

  lemma PlacesInParts(r: seq<Resource>, pre: seq<Resource>, post: seq<Resource>, i: nat)
    requires InPlace(r, pre, post) && i < |r|
    ensures Waits(r[i]) ==> |pre| + |Block(r)| <= i
    ensures IsCertManagerKind(r[i].gvk) ==> i < |pre| + |Block(r)|
  {
    BlockIsCertManager(r);
    hide Filter, Block;
    if i < |pre| {
      assert r[i] == pre[i] && r[i] in pre;
    } else if i < |pre| + |Block(r)| {
      assert r[i] == Block(r)[i - |pre|] && r[i] in Block(r);
      assert IsCertManagerKind(r[i].gvk);
    } else {
      assert r[i] == post[i - |pre| - |Block(r)|] && r[i] in post;
    }
  }

  /** Every issuer and certificate comes before every workload and webhook. */
  lemma IssuersComeFirst(rs: seq<Resource>, i: nat, j: nat)
    requires i < |Reordered(rs)| && j < |Reordered(rs)|
    requires IsCertManagerKind(Reordered(rs)[i].gvk) && Waits(Reordered(rs)[j])
    ensures i < j
  {
    hide Filter, Reordered, Block, IsCertManagerKind, Waits;
    var r := Reordered(rs);
    ReorderingConserves(rs);
    assert r[i] in multiset(rs);
    FilterMembers(CertManager(), rs);
    assert r[i] in Filter(CertManager(), rs);
    var pre, post := BlockIsInPlace(rs);
    hide InPlace;
    PlacesInParts(r, pre, post, i);
    PlacesInParts(r, pre, post, j);
  }

  /** A list in place is left as it is. */
  lemma InPlaceStays(r: seq<Resource>, pre: seq<Resource>, post: seq<Resource>)
    requires InPlace(r, pre, post)
    ensures Reordered(r) == r
  {
    hide Filter, Block, Leading;
    if Filter(CertManager(), r) != [] {
      OthersAround(r, pre, post);
      LeadingUnique(pre, post);
      assert (pre + post)[..|pre|] == pre && (pre + post)[|pre|..] == post;
    }
  }

  lemma OthersAround(r: seq<Resource>, pre: seq<Resource>, post: seq<Resource>)
    requires InPlace(r, pre, post) && Filter(CertManager(), r) != []
    ensures Filter(Other(), r) == pre + post
  {
    hide Filter, Block;
    BlockMembers(r);
    FilterOfParts(Other(), pre, Block(r), post);
    FilterAll(Other(), pre);
    FilterAll(Other(), post);
    FilterNone(Other(), Block(r));
    assert pre + [] + post == pre + post;
  }

  /** Applying it twice is applying it once. */
  lemma ReorderingIdempotent(rs: seq<Resource>)
    ensures Reordered(Reordered(rs)) == Reordered(rs)
  {
    if Filter(CertManager(), rs) != [] {
      var pre, post := BlockIsInPlace(rs);
      InPlaceStays(Reordered(rs), pre, post);
    }
  }

  /** The promises leave no choice: any other list that keeps them is the same list. */
  lemma ReorderingUnique(rs: seq<Resource>, r: seq<Resource>, pre: seq<Resource>, post: seq<Resource>)
    requires InPlace(r, pre, post) && Filter(CertManager(), rs) != []
    requires Filter(Other(), r) == Filter(Other(), rs)
    requires forall g | IsCertManagerKind(g) :: Filter(OfKind(g), r) == Filter(OfKind(g), rs)
    ensures r == Reordered(rs)
  {
    InPlaceStays(r, pre, post);
    BlockHoldsCertManager(r);
    BlockHoldsCertManager(rs);
    SameKindsSameBlock(r, rs);
    hide Filter;
    assert |multiset(Block(rs))| == |Filter(CertManager(), rs)|;
    assert |multiset(Block(r))| == |Filter(CertManager(), r)|;
  }
}
