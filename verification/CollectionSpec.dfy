/**
 * Which objects the garbage collector may delete, and what a sweep over the
 * listed types does while others act.
 */
module CollectionSpec {
  import opened Options
  import opened Cluster
  import opened DeploySpec
  import Decimal

  const LEASE := GroupVersionKind("coordination.k8s.io", "v1", "Lease")

  /** Options only ever add to the unremovable types. */
  datatype GcConfig = GcConfig(
    labels: map<string, string>,
    unremovables: set<GroupVersionKind>,
    onlyOwned: bool,
    typePredicate: GroupVersionKind -> bool,
    ownersListed: Manifest -> seq<string>)

  /**
   * The unremovable types are never taken out; `ownersListed` is the order in
   * which an object lists its owners' uids.
   */
  ghost predicate Configured(g: GcConfig) {
    && CRD in g.unremovables && LEASE in g.unremovables
    && forall m: Manifest, uid | uid in m.owners :: uid in g.ownersListed(m)
  }

  datatype RunParams = RunParams(owner: Owner, generation: int, version: string, platformType: string)

  datatype GcError =
    | MalformedOwner(key: Key)
    | MalformedGeneration(key: Key)
    | MalformedGroupVersion(text: string)
    | ListFailed(gvk: GroupVersionKind, text: string)
    | DeleteFailed(key: Key, text: string)

  /** `DefaultObjectPredicate`; None when the generation annotation is not a number. */
  function DefaultObjectPredicate(p: RunParams, m: Manifest): Option<bool> {
    if m.annotations == map[] then Some(false)
    else
      var pv, pt := Lookup(m.annotations, PLATFORM_VERSION), Lookup(m.annotations, PLATFORM_TYPE);
      var ig, iu := Lookup(m.annotations, INSTANCE_GENERATION), Lookup(m.annotations, INSTANCE_UID);
      if pv == "" || pt == "" || ig == "" || iu == "" then Some(true)
      else if pv != p.version then Some(true)
      else if pt != p.platformType then Some(true)
      else if iu != p.owner.uid then Some(true)
      else match Decimal.Atoi(ig)
        case None => None
        case Some(g) => Some(p.generation != g)
  }

  function RefsIn(uids: seq<string>, owners: map<string, OwnerRef>): seq<OwnerRef> {
    if uids == [] then []
    else (if uids[0] in owners then [owners[uids[0]]] else []) + RefsIn(uids[1..], owners)
  }

  /** `IsOwnedByType`: the search ends at the first match, or with None at a malformed reference before it. */
  function OwnedByType(refs: seq<OwnerRef>, gvk: GroupVersionKind): Option<bool> {
    if refs == [] then Some(false)
    else match RefersTo(refs[0], gvk)
      case None => None
      case Some(true) => Some(true)
      case Some(false) => OwnedByType(refs[1..], gvk)
  }

  function Owned(g: GcConfig, p: RunParams, m: Manifest): Option<bool> {
    OwnedByType(RefsIn(g.ownersListed(m), m.owners), p.owner.gvk)
  }

  lemma {:induction false} RefsInLists(uids: seq<string>, owners: map<string, OwnerRef>)
    ensures forall ref :: ref in RefsIn(uids, owners) <==>
              exists uid | uid in uids :: uid in owners && owners[uid] == ref
  {
    if uids != [] {
      RefsInLists(uids[1..], owners);
    }
  }

  /** The answer is yes if and only if some reference matches and none before the first match is malformed. */
  lemma {:induction false} OwnedByTypeFinds(refs: seq<OwnerRef>, gvk: GroupVersionKind)
    ensures OwnedByType(refs, gvk) == Some(true) <==>
            exists i | 0 <= i < |refs| ::
              RefersTo(refs[i], gvk) == Some(true) && forall j | 0 <= j < i :: RefersTo(refs[j], gvk).Some?
    ensures OwnedByType(refs, gvk) == Some(false) <==>
              forall i | 0 <= i < |refs| :: RefersTo(refs[i], gvk) == Some(false)
  {
    if refs != [] {
      OwnedByTypeFinds(refs[1..], gvk);
      hide RefersTo;
      assert forall i | 0 < i < |refs| :: refs[i] == refs[1..][i - 1];
      if i :| 0 <= i < |refs| && RefersTo(refs[i], gvk) == Some(true)
              && forall j | 0 <= j < i :: RefersTo(refs[j], gvk).Some?
      {
        if i > 0 {
          assert RefersTo(refs[0], gvk).Some?;
          assert forall j | 0 <= j < i - 1 :: RefersTo(refs[1..][j], gvk) == RefersTo(refs[j + 1], gvk);
        }
      }
      if RefersTo(refs[0], gvk) == Some(false) && OwnedByType(refs[1..], gvk) == Some(true) {
        var i :| 0 <= i < |refs[1..]| && RefersTo(refs[1..][i], gvk) == Some(true)
                 && forall j | 0 <= j < i :: RefersTo(refs[1..][j], gvk).Some?;
        assert RefersTo(refs[i + 1], gvk) == Some(true);
      }
    }
  }

  function IsObjectDeletable(g: GcConfig, p: RunParams, m: Manifest): Result<bool, GcError> {
    if m.key.gvk in g.unremovables then Ok(false)
    else if MANAGED in m.annotations && m.annotations[MANAGED] == "false" then Ok(false)
    else if g.onlyOwned && Owned(g, p, m).None? then Err(MalformedOwner(m.key))
    else if g.onlyOwned && !Owned(g, p, m).value then Ok(false)
    else match DefaultObjectPredicate(p, m)
      case None => Err(MalformedGeneration(m.key))
      case Some(b) => Ok(b)
  }

  predicate Matches(g: GcConfig, p: RunParams, labels: map<string, string>) {
    if g.labels != map[] then forall k | k in g.labels :: k in labels && labels[k] == g.labels[k]
    else PART_OF in labels && labels[PART_OF] == ToLower(p.owner.gvk.kind)
  }

  /** Objects the sweep lists and looks at: of a listed, removable, allowed type, with matching labels. */
  predicate Listed(g: GcConfig, p: RunParams, types: seq<GroupVersionKind>, s: Server, k: Key) {
    && k in s.objects
    && k.gvk in types && k.gvk !in g.unremovables && g.typePredicate(k.gvk)
    && Matches(g, p, s.objects[k].content.labels)
  }

  predicate Doomed(g: GcConfig, p: RunParams, types: seq<GroupVersionKind>, s: Server, k: Key) {
    && Listed(g, p, types, s, k)
    && IsObjectDeletable(g, p, s.objects[k].content) == Ok(true)
    && !s.objects[k].terminating
  }

  /** The only difference: the keys in `gone` were deleted. */
  ghost predicate SweptBy(before: Server, after: Server, gone: set<Key>) {
    && after.objects.Keys == before.objects.Keys && gone <= before.objects.Keys
    && before.lastVersion <= after.lastVersion
    && forall k | k in before.objects ::
         if k in gone then
           && after.objects[k].content == before.objects[k].content && after.objects[k].terminating
           && before.lastVersion < after.objects[k].resourceVersion <= after.lastVersion
         else after.objects[k] == before.objects[k]
  }

  // ----- a sweep while others act -----

  /** How the server answers a list request; a type that cannot be listed is passed over. */
  datatype ListAnswer = Lists | Unlistable | ListFails(text: string)

  /**
   * What others do before a delete request, and whether the server refuses it.
   * A request that is answered with an error although it took effect is one that
   * somebody else made before the refusal.
   */
  datatype Pause = Pause(acts: seq<Act>, refusal: Option<string>)

  /** What the sweep meets at one type: others acting, an answer, and a pause before the request for each item. */
  datatype TypeTurn = TypeTurn(before: seq<Act>, answer: ListAnswer, pauses: nat -> Pause)

  /** A delete request that got through: the copy it was decided on, and the object it met, if any was left. */
  datatype Deletion = Deletion(listed: Object, met: Option<Object>)

  /** What became of one type, or of one item of the list. */
  datatype Tally = Tally(server: Server, error: Option<GcError>, listed: seq<Object>, deletions: seq<Deletion>)

  datatype ItemOutcome = Passed | Failed(server: Server, error: GcError) | Gone(server: Server, deletion: Deletion)

  predicate MayGo(g: GcConfig, p: RunParams, o: Object) {
    IsObjectDeletable(g, p, o.content) == Ok(true) && !o.terminating
  }

  /** The decision is made on the copy; the request carries the key only. */
  function ItemStep(g: GcConfig, p: RunParams, s: Server, item: Object, pause: Pause): ItemOutcome {
    match IsObjectDeletable(g, p, item.content)
    case Err(e) => Failed(s, e)
    case Ok(may) =>
      if !may || item.terminating then Passed
      else
        var met, k := Suffered(s, pause.acts), item.content.key;
        match pause.refusal
        case Some(text) => Failed(met, DeleteFailed(k, text))
        case None => Gone(Deleted(met, k), Deletion(item, Get(met, k)))
  }

  function Prepended(ds: seq<Deletion>, t: Tally): Tally {
    t.(deletions := ds + t.deletions)
  }

  /** The deletion loop from the n-th item on. */
  function ItemsDeleted(g: GcConfig, p: RunParams, s: Server, items: seq<Object>, pauses: nat -> Pause, n: nat): Tally
    requires n <= |items|
    decreases |items| - n
  {
    if n == |items| then Tally(s, None, items, [])
    else match ItemStep(g, p, s, items[n], pauses(n))
      case Passed => ItemsDeleted(g, p, s, items, pauses, n + 1)
      case Failed(s', e) => Tally(s', Some(e), items, [])
      case Gone(s', d) => Prepended([d], ItemsDeleted(g, p, s', items, pauses, n + 1))
  }

  predicate Sweepable(g: GcConfig, gvk: GroupVersionKind) {
    gvk !in g.unremovables && g.typePredicate(gvk)
  }

  /** Copies of the objects of the type with matching labels, each once, in whatever order. */
  ghost predicate ListedBy(g: GcConfig, p: RunParams, s: Server, gvk: GroupVersionKind, items: seq<Object>) {
    && (forall o :: o in items <==>
                    && o.content.key in s.objects && s.objects[o.content.key] == o
                    && o.content.key.gvk == gvk && Matches(g, p, o.content.labels))
    && forall i, j | 0 <= i < j < |items| :: items[i].content.key != items[j].content.key
  }

  function TypeCollected(
      g: GcConfig, p: RunParams, s: Server, gvk: GroupVersionKind, turn: TypeTurn, items: seq<Object>): Tally
  {
    if !Sweepable(g, gvk) then Tally(s, None, [], [])
    else
      var met := Suffered(s, turn.before);
      match turn.answer
      case Lists => ItemsDeleted(g, p, met, items, turn.pauses, 0)
      case Unlistable => Tally(met, None, [], [])
      case ListFails(text) => Tally(met, Some(ListFailed(gvk, text)), [], [])
  }

  /** `t` is what may become of one type. */
  ghost predicate Collects(g: GcConfig, p: RunParams, s: Server, gvk: GroupVersionKind, turn: TypeTurn, t: Tally) {
    && (Sweepable(g, gvk) && turn.answer.Lists? ==> ListedBy(g, p, Suffered(s, turn.before), gvk, t.listed))
    && t == TypeCollected(g, p, s, gvk, turn, t.listed)
  }

  function ServerAfter(s: Server, steps: seq<Tally>): Server {
    if steps == [] then s else steps[|steps| - 1].server
  }

  function ErrorOf(steps: seq<Tally>): Option<GcError> {
    if steps == [] then None else steps[|steps| - 1].error
  }

  function Deletions(steps: seq<Tally>): seq<Deletion> {
    if steps == [] then [] else Deletions(steps[..|steps| - 1]) + steps[|steps| - 1].deletions
  }

  /** The types swept so far, one step each; only the last may have failed. */
  ghost predicate SweepsOn(
      g: GcConfig, p: RunParams, s: Server, types: seq<GroupVersionKind>, turns: nat -> TypeTurn, steps: seq<Tally>)
  {
    && |steps| <= |types|
    && (forall n | 0 <= n < |steps| :: Collects(g, p, ServerAfter(s, steps[..n]), types[n], turns(n), steps[n]))
    && (forall n | 0 <= n < |steps| - 1 :: steps[n].error == None)
  }

  /** A sweep ends after the last type or with the first error. */
  ghost predicate Sweeps(
      g: GcConfig, p: RunParams, s: Server, types: seq<GroupVersionKind>, turns: nat -> TypeTurn, steps: seq<Tally>)
  {
    SweepsOn(g, p, s, types, turns, steps) && (ErrorOf(steps) == None ==> |steps| == |types|)
  }

  /** Nobody acts and no request fails. */
  ghost predicate Undisturbed(turns: nat -> TypeTurn) {
    forall n: nat :: QuietTurn(turns(n))
  }

  ghost predicate QuietTurn(t: TypeTurn) {
    t.before == [] && t.answer == Lists && forall j: nat :: t.pauses(j) == Pause([], None)
  }
}
