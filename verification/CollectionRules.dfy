/** Which objects the collector looks at and which it may delete, said of their labels, annotations and owners. */
module CollectionRules {
  import opened Options
  import opened Cluster
  import opened DeploySpec
  import opened DeployLaws
  import opened CollectionSpec
  import Decimal

  /** The value of an annotation, empty when it is missing. */
  function Note(m: Manifest, k: string): string {
    if k in m.annotations then m.annotations[k] else ""
  }

  /** A run of decimal digits. */
  predicate AllDigits(s: string) {
    s != "" && forall c | c in s :: '0' <= c <= '9'
  }

  lemma {:induction false} ValueExactlyWhen(s: string)
    ensures Decimal.Value(s).Some? <==> AllDigits(s)
    ensures AllDigits(s) && |s| > 1 ==>
              Decimal.Value(s[..|s| - 1]).Some?
              && Decimal.Value(s).value == 10 * Decimal.Value(s[..|s| - 1]).value + (s[|s| - 1] as int - 48)
    ensures AllDigits(s) && |s| == 1 ==> Decimal.Value(s) == Some(s[0] as int - 48)
  {
    if |s| > 1 {
      var front, last := s[..|s| - 1], s[|s| - 1];
      ValueExactlyWhen(front);
      assert last in s && forall c | c in front :: c in s;
      forall c | c in s ensures c in front || c == last {
        var i :| 0 <= i < |s| && s[i] == c;
        assert i < |front| ==> front[i] == c;
      }
      assert AllDigits(s) <==> AllDigits(front) && '0' <= last <= '9';
    } else if |s| == 1 {
      assert s[0] in s;
    }
  }

  /** A number is digits, with a sign or without, in the range of an int64. */
  lemma AtoiExactlyWhen(s: string, n: int)
    ensures Decimal.Atoi(s) == Some(n) <==>
            && -0x8000_0000_0000_0000 <= n <= 0x7FFF_FFFF_FFFF_FFFF
            && if s != "" && s[0] == '-' then AllDigits(s[1..]) && Decimal.Value(s[1..]) == Some(-n)
               else if s != "" && s[0] == '+' then AllDigits(s[1..]) && Decimal.Value(s[1..]) == Some(n)
               else AllDigits(s) && Decimal.Value(s) == Some(n)
  {
    ValueExactlyWhen(s);
    if s != "" {
      ValueExactlyWhen(s[1..]);
    }
    hide Decimal.Value;
  }

  /** What the collector lists: the configured labels, or else the part-of label of the owner's kind. */
  lemma MatchesExactlyWhen(g: GcConfig, p: RunParams, labels: map<string, string>)
    ensures g.labels != map[] ==>
              (Matches(g, p, labels) <==> forall k | k in g.labels :: At(labels, k) == Some(g.labels[k]))
    ensures g.labels == map[] ==>
              (Matches(g, p, labels) <==>
               At(labels, "platform.opendatahub.io/part-of") == Some(ToLower(p.owner.gvk.kind)))
  {
  }

  // ----- owners -----

  predicate IsWellFormed(ref: OwnerRef) {
    ParseGroupVersion(ref.apiVersion).Some?
  }

  ghost predicate NamesOwner(p: RunParams, ref: OwnerRef) {
    IsGroupVersion(ref.apiVersion, p.owner.gvk.group, p.owner.gvk.version) && ref.kind == p.owner.gvk.kind
  }

  /** A reference to the owner's type is listed, and every one before it can be read. */
  ghost predicate IsOwned(g: GcConfig, p: RunParams, m: Manifest) {
    var refs := RefsIn(g.ownersListed(m), m.owners);
    exists i | 0 <= i < |refs| :: NamesOwner(p, refs[i]) && forall j | 0 <= j < i :: IsWellFormed(refs[j])
  }

  /** No reference names the owner's type, and all can be read. */
  ghost predicate IsForeign(g: GcConfig, p: RunParams, m: Manifest) {
    var refs := RefsIn(g.ownersListed(m), m.owners);
    forall i | 0 <= i < |refs| :: IsWellFormed(refs[i]) && !NamesOwner(p, refs[i])
  }

  lemma OwnedSays(g: GcConfig, p: RunParams, m: Manifest)
    ensures Owned(g, p, m) == Some(true) <==> IsOwned(g, p, m)
    ensures Owned(g, p, m) == Some(false) <==> IsForeign(g, p, m)
  {
    var refs := RefsIn(g.ownersListed(m), m.owners);
    OwnedByTypeFinds(refs, p.owner.gvk);
    forall ref
      ensures RefersTo(ref, p.owner.gvk).Some? <==> IsWellFormed(ref)
      ensures RefersTo(ref, p.owner.gvk) == Some(true) <==> NamesOwner(p, ref)
    {
      RefersToSays(ref, p.owner.gvk);
    }
    hide RefersTo, IsWellFormed, NamesOwner;
  }

  // ----- stamps -----

  /** One of the stamps is missing, or is not of this version, release type or owner. */
  predicate StampDiffers(p: RunParams, m: Manifest) {
    || Note(m, "platform.opendatahub.io/version") == "" || Note(m, "platform.opendatahub.io/type") == ""
    || Note(m, "platform.opendatahub.io/instance.generation") == ""
    || Note(m, "platform.opendatahub.io/instance.uid") == ""
    || Note(m, "platform.opendatahub.io/version") != p.version
    || Note(m, "platform.opendatahub.io/type") != p.platformType
    || Note(m, "platform.opendatahub.io/instance.uid") != p.owner.uid
  }

  /** The generation stamped on the object. */
  function StampedGeneration(m: Manifest): Option<int> {
    Decimal.Atoi(Note(m, "platform.opendatahub.io/instance.generation"))
  }

  /** Neither of an unremovable type nor opted out. */
  predicate IsRemovable(g: GcConfig, m: Manifest) {
    m.key.gvk !in g.unremovables && Note(m, "opendatahub.io/managed") != "false"
  }

  /**
   * What the collector decides of an object: it may go if it is removable, owned
   * where only owned objects are collected, and annotated with stamps of which
   * one is missing, differs or is of another generation. Owners that cannot be
   * read and a generation that is no number end the run, but only where the
   * decision comes to depend on them.
   */
  lemma DeletableExactlyWhen(g: GcConfig, p: RunParams, m: Manifest)
    ensures var r := IsObjectDeletable(g, p, m);
            var due := IsRemovable(g, m) && (g.onlyOwned ==> IsOwned(g, p, m));
            var annotated := m.annotations != map[];
            && (r == Ok(true) <==>
                  && due && annotated
                  && (StampDiffers(p, m) || (StampedGeneration(m).Some? && StampedGeneration(m) != Some(p.generation))))
            && (r == Err(MalformedOwner(m.key)) <==>
                  IsRemovable(g, m) && g.onlyOwned && !IsOwned(g, p, m) && !IsForeign(g, p, m))
            && (r == Err(MalformedGeneration(m.key)) <==>
                  due && annotated && !StampDiffers(p, m) && StampedGeneration(m).None?)
            && (r == Ok(false) <==>
                  || !IsRemovable(g, m)
                  || (g.onlyOwned && IsForeign(g, p, m))
                  || (due && (!annotated || (!StampDiffers(p, m) && StampedGeneration(m) == Some(p.generation)))))
  {
    OwnedSays(g, p, m);
    hide Owned, IsOwned, IsForeign, Decimal.Atoi;
  }

  // ----- what ends a sweep -----

  /** The deletion loop cannot get past this item: it cannot be decided, or its deletion is refused. */
  ghost predicate Stops(g: GcConfig, p: RunParams, item: Object, pause: Pause) {
    || IsObjectDeletable(g, p, item.content).Err?
    || (IsObjectDeletable(g, p, item.content) == Ok(true) && !item.terminating && pause.refusal.Some?)
  }

  /** The error an item stops the loop with. */
  function ErrorAt(g: GcConfig, p: RunParams, item: Object, pause: Pause): Option<GcError> {
    match IsObjectDeletable(g, p, item.content)
    case Err(e) => Some(e)
    case Ok(_) => if pause.refusal.Some? then Some(DeleteFailed(item.content.key, pause.refusal.value)) else None
  }

  /** The deletion loop ends with the error of the first item that stops it, and without one if none does. */
  lemma {:induction false} ItemsEndWith(
      g: GcConfig, p: RunParams, s: Server, items: seq<Object>, pauses: nat -> Pause, n: nat, k: nat)
    requires n <= k <= |items| && forall j: nat | n <= j < k :: !Stops(g, p, items[j], pauses(j))
    requires k < |items| ==> Stops(g, p, items[k], pauses(k))
    ensures var t := ItemsDeleted(g, p, s, items, pauses, n);
            t.listed == items && t.error == if k == |items| then None else ErrorAt(g, p, items[k], pauses(k))
    decreases k - n
  {
    if n < k {
      hide IsObjectDeletable, Suffered, Deleted;
      match ItemStep(g, p, s, items[n], pauses(n))
      case Passed => ItemsEndWith(g, p, s, items, pauses, n + 1, k);
      case Gone(s', _) => ItemsEndWith(g, p, s', items, pauses, n + 1, k);
      case Failed(_, _) => assert false;
    }
  }

  /** An unremovable, excluded or unlistable type is passed over; a failing list ends the run, as an item may. */
  lemma TypeEndsWith(
      g: GcConfig, p: RunParams, s: Server, gvk: GroupVersionKind, turn: TypeTurn, items: seq<Object>, k: nat)
    requires k <= |items| && forall j: nat | j < k :: !Stops(g, p, items[j], turn.pauses(j))
    requires k < |items| ==> Stops(g, p, items[k], turn.pauses(k))
    ensures var t := TypeCollected(g, p, s, gvk, turn, items);
            if gvk in g.unremovables || !g.typePredicate(gvk) then t == Tally(s, None, [], [])
            else match turn.answer
              case Unlistable => t == Tally(Suffered(s, turn.before), None, [], [])
              case ListFails(text) => t == Tally(Suffered(s, turn.before), Some(ListFailed(gvk, text)), [], [])
              case Lists => t.error == if k == |items| then None else ErrorAt(g, p, items[k], turn.pauses(k))
  {
    hide ItemsDeleted, Stops, ErrorAt, Suffered;
    if turn.answer.Lists? {
      ItemsEndWith(g, p, Suffered(s, turn.before), items, turn.pauses, 0, k);
    }
  }
}
