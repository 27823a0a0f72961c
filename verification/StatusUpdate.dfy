/**
 * Optimistic status updates: a retry loop against other writers who may act
 * between any two of our calls.
 */
module StatusUpdate {
  import opened Options

  datatype Content = Content(spec: string, status: string)

  datatype Doc = Doc(content: Content, version: nat)

  datatype ApiError = NotFound | Conflict | Failed(text: string)

  // ----- the server -----

  datatype Act = Write(content: Content) | Remove

  /**
   * The stored object, the version counter shared by all writes, and what every
   * version held; `calls` counts the requests of ours that have arrived.
   */
  datatype World = World(live: Option<Doc>, clock: nat, past: map<nat, Content>, calls: nat)

  /** What happens around our n-th request: the acts of others before it, and a fault of its own. */
  datatype Surroundings = Surroundings(others: nat -> seq<Act>, fault: nat -> Option<string>)

  /** Storing anything different gets a fresh version; storing the same is no write. */
  function Stored(w: World, content: Content): World {
    if w.live.Some? && w.live.value.content == content then w
    else w.(live := Some(Doc(content, w.clock + 1)), clock := w.clock + 1, past := w.past[w.clock + 1 := content])
  }

  function Acted(w: World, act: Act): World {
    match act
    case Write(content) => Stored(w, content)
    case Remove => w.(live := None)
  }

  function Interfered(w: World, acts: seq<Act>): World
    decreases |acts|
  {
    if acts == [] then w else Interfered(Acted(w, acts[0]), acts[1..])
  }

  /** The world our next request meets. */
  function Arrival(env: Surroundings, w: World): World {
    Interfered(w, env.others(w.calls)).(calls := w.calls + 1)
  }

  function Fault(env: Surroundings, w: World): Option<ApiError> {
    match env.fault(w.calls) case None => None case Some(text) => Some(Failed(text))
  }

  function Read(env: Surroundings, w: World): Result<Doc, ApiError> {
    if Fault(env, w).Some? then Err(Fault(env, w).value)
    else match Arrival(env, w).live
      case None => Err(NotFound)
      case Some(d) => Ok(d)
  }

  /** The status subresource: only the status of the submitted object is taken. */
  function Landed(w: World, status: string): World
    requires w.live.Some?
  {
    Stored(w, w.live.value.content.(status := status))
  }

  function Refusal(env: Surroundings, w: World, d: Doc): Option<ApiError> {
    if Fault(env, w).Some? then Fault(env, w)
    else match Arrival(env, w).live
      case None => Some(NotFound)
      case Some(l) => if l.version != d.version then Some(Conflict) else None
  }

  function Submitted(env: Surroundings, w: World, d: Doc): World {
    if Refusal(env, w, d).Some? then Arrival(env, w) else Landed(Arrival(env, w), d.content.status)
  }

  // ----- the loop, on values -----

  const DEFAULT_MAX_RETRIES := 5

  /** The retries the options ask for: the last option counts. */
  function Limit(opts: seq<int>): int {
    if opts == [] then DEFAULT_MAX_RETRIES else opts[|opts| - 1]
  }

  datatype UpdateError =
    | NilMutateFn
    | Rereading(cause: ApiError)
    | Updating(cause: ApiError)
    | RetriesExhausted(last: Option<ApiError>)

  type MutateFn = Content -> Content

  datatype Outcome = Outcome(world: World, obj: Doc, error: Option<UpdateError>, mutations: nat)

  function Attempts(
      env: Surroundings, w: World, obj: Doc, mutate: MutateFn, attempt: nat, maxRetries: int,
      lastErr: Option<ApiError>): Outcome
    decreases maxRetries + 1 - attempt
  {
    if attempt > maxRetries then Outcome(w, obj, Some(RetriesExhausted(lastErr)), 0)
    else if attempt == 0 then Attempted(env, w, obj, mutate, attempt, maxRetries)
    else
      match Read(env, w)
      case Err(e) => Outcome(Arrival(env, w), obj, Some(Rereading(e)), 0)
      case Ok(d) => Attempted(env, Arrival(env, w), d, mutate, attempt, maxRetries)
  }

  function Attempted(env: Surroundings, w: World, obj: Doc, mutate: MutateFn, attempt: nat, maxRetries: int): Outcome
    requires attempt <= maxRetries
    decreases maxRetries + 1 - attempt, 0
  {
    var mutated := obj.(content := mutate(obj.content));
    var refusal, after := Refusal(env, w, mutated), Submitted(env, w, mutated);
    if refusal.None? then Outcome(after, after.live.value, None, 1)
    else if refusal.value != Conflict then Outcome(after, mutated, Some(Updating(refusal.value)), 1)
    else
      var rest := Attempts(env, after, mutated, mutate, attempt + 1, maxRetries, refusal);
      rest.(mutations := rest.mutations + 1)
  }

  function Updated(env: Surroundings, w: World, obj: Doc, mutate: Option<MutateFn>, maxRetries: int): Outcome {
    if mutate.None? then Outcome(w, obj, Some(NilMutateFn), 0)
    else Attempts(env, w, obj, mutate.value, 0, maxRetries, None)
  }

  // ----- the loop, in place -----

  class Server {
    const env: Surroundings
    var world: World

    constructor (env: Surroundings, world: World)
      ensures this.env == env && this.world == world
    {
      this.env := env;
      this.world := world;
    }

    method Get() returns (r: Result<Doc, ApiError>)
      modifies this
      ensures r == Read(env, old(world)) && world == Arrival(env, old(world))
    {
      r := Read(env, world);
      world := Arrival(env, world);
    }

    method UpdateStatus(d: Doc) returns (r: Result<Doc, ApiError>)
      modifies this
      ensures world == Submitted(env, old(world), d)
      ensures match Refusal(env, old(world), d)
              case Some(e) => r == Err(e)
              case None => world.live.Some? && r == Ok(world.live.value)
    {
      var refusal := Refusal(env, world, d);
      world := Submitted(env, world, d);
      r := if refusal.Some? then Err(refusal.value) else Ok(world.live.value);
    }
  }

  /** The caller's copy, re-read and mutated in place. */
  class LocalObject {
    var doc: Doc

    constructor (doc: Doc)
      ensures this.doc == doc
    {
      this.doc := doc;
    }
  }

  method Update(c: Server, obj: LocalObject, mutate: Option<MutateFn>, opts: seq<int>)
    returns (error: Option<UpdateError>, ghost mutations: nat)
    modifies c, obj
    ensures Outcome(c.world, obj.doc, error, mutations)
              == Updated(c.env, old(c.world), old(obj.doc), mutate, if opts == [] then 5 else opts[|opts| - 1])
  {
    mutations := 0;
    if mutate.None? {
      return Some(NilMutateFn), 0;
    }
    var maxRetries := DEFAULT_MAX_RETRIES;
    for i := 0 to |opts|
      invariant maxRetries == Limit(opts[..i])
    {
      maxRetries := opts[i];
    }
    assert opts[..|opts|] == opts;
    var lastErr: Option<ApiError> := None;
    var attempt := 0;
    ghost var whole := Updated(c.env, c.world, obj.doc, mutate, maxRetries);
    while attempt <= maxRetries
      invariant 0 <= attempt
      invariant var rest := Attempts(c.env, c.world, obj.doc, mutate.value, attempt, maxRetries, lastErr);
                rest.(mutations := rest.mutations + mutations) == whole
      decreases maxRetries + 1 - attempt
    {
      if attempt > 0 {
        var got := c.Get();
        if got.Err? {
          return Some(Rereading(got.error)), mutations;
        }
        obj.doc := got.value;
      }
      obj.doc := obj.doc.(content := mutate.value(obj.doc.content));
      mutations := mutations + 1;
      var written := c.UpdateStatus(obj.doc);
      if written.Ok? {
        obj.doc := written.value;
        return None, mutations;
      }
      lastErr := Some(written.error);
      if written.error != Conflict {
        return Some(Updating(written.error)), mutations;
      }
      attempt := attempt + 1;
    }
    return Some(RetriesExhausted(lastErr)), mutations;
  }

  // ----- what every interleaving keeps -----

  /** Versions are never reused: the history knows what each one held. */
  ghost predicate Consistent(w: World) {
    && (forall v | v in w.past :: v <= w.clock)
    && (w.live.Some? ==> w.live.value.version in w.past && w.past[w.live.value.version] == w.live.value.content)
  }

  /** `d` is an unmodified read of some earlier or current state. */
  ghost predicate Snapshot(w: World, d: Doc) {
    d.version in w.past && w.past[d.version] == d.content
  }

  /** The world after `k` of our requests arrive and change nothing: only others act. */
  function Idle(env: Surroundings, w: World, k: nat): World
    decreases k
  {
    if k == 0 then w else Idle(env, Arrival(env, w), k - 1)
  }

  lemma {:induction false} InterferenceKeepsHistory(w: World, acts: seq<Act>)
    requires Consistent(w)
    ensures var after := Interfered(w, acts);
            && Consistent(after) && w.clock <= after.clock
            && forall v | v in w.past :: v in after.past && after.past[v] == w.past[v]
    decreases |acts|
  {
    if acts != [] {
      InterferenceKeepsHistory(Acted(w, acts[0]), acts[1..]);
    }
  }

  lemma ArrivalKeepsHistory(env: Surroundings, w: World)
    requires Consistent(w)
    ensures Consistent(Arrival(env, w))
    ensures forall d: Doc | Snapshot(w, d) :: Snapshot(Arrival(env, w), d)
  {
    InterferenceKeepsHistory(w, env.others(w.calls));
  }

  /** The content the last mutation was applied to: what the server held, or the caller's copy. */
  ghost predicate LandsOnce(env: Surroundings, w: World, o: Outcome, mutate: MutateFn, k: nat, c: Content) {
    var before := Idle(env, w, k);
    && before.live.Some?
    && o.world == Landed(before, mutate(c).status)
    && o.world.live == Some(o.obj)
  }

  lemma {:induction false} AttemptsLand(
      env: Surroundings, w: World, obj: Doc, mutate: MutateFn, attempt: nat, maxRetries: int, lastErr: Option<ApiError>)
    returns (k: nat)
    requires Consistent(w) && attempt > 0
    ensures var o := Attempts(env, w, obj, mutate, attempt, maxRetries, lastErr);
            && (o.error.None? ==> && Idle(env, w, k).live.Some?
                                  && LandsOnce(env, w, o, mutate, k, Idle(env, w, k).live.value.content))
            && (o.error.Some? ==> o.world == Idle(env, w, k))
            && o.mutations <= Max0(maxRetries + 1 - attempt)
    decreases maxRetries + 1 - attempt
  {
    if attempt > maxRetries {
      return 0;
    }
    if Read(env, w).Err? {
      assert Idle(env, w, 1) == Idle(env, Arrival(env, w), 0);
      return 1;
    }
    ArrivalKeepsHistory(env, w);
    k := AttemptedLands(env, Arrival(env, w), Read(env, w).value, mutate, attempt, maxRetries);
    k := k + 1;
  }

  /** Only the first of these attempts can go by a copy nobody ever read. */
  lemma {:induction false} AttemptedLands(
      env: Surroundings, w: World, obj: Doc, mutate: MutateFn, attempt: nat, maxRetries: int)
    returns (k: nat)
    requires Consistent(w) && attempt <= maxRetries
    ensures var o := Attempted(env, w, obj, mutate, attempt, maxRetries);
            && (o.error.None? ==>
                  && Idle(env, w, k).live.Some?
                  && (|| LandsOnce(env, w, o, mutate, k, Idle(env, w, k).live.value.content)
                      || (&& !Snapshot(w, obj) && k == 1 && o.mutations == 1
                          && LandsOnce(env, w, o, mutate, 1, obj.content))))
            && (o.error.Some? ==> o.world == Idle(env, w, k))
            && o.mutations <= maxRetries + 1 - attempt
    decreases maxRetries + 1 - attempt, 0
  {
    var mutated := obj.(content := mutate(obj.content));
    var refusal := Refusal(env, w, mutated);
    ArrivalKeepsHistory(env, w);
    assert Idle(env, w, 1) == Idle(env, Arrival(env, w), 0) == Arrival(env, w);
    if refusal == Some(Conflict) {
      k := AttemptsLand(env, Arrival(env, w), mutated, mutate, attempt + 1, maxRetries, refusal);
      k := k + 1;
    } else {
      k := 1;
    }
  }

  function Max0(n: int): nat {
    if n < 0 then 0 else n
  }

  /**
   * Whatever others do in between, and whatever copy the caller passes: failure
   * means our requests changed nothing, and success that the world is what others
   * made of it with one write of ours in it. That write is the mutation of
   * exactly the object it replaced, unless it was the first attempt, with a copy
   * that is no read of the object.
   */
  lemma UpdateIsLinearizable(env: Surroundings, w: World, obj: Doc, mutate: Option<MutateFn>, maxRetries: int)
    returns (k: nat)
    requires Consistent(w)
    ensures var o := Updated(env, w, obj, mutate, maxRetries);
            && (o.error.None? ==>
                  && mutate.Some? && Idle(env, w, k).live.Some?
                  && (|| LandsOnce(env, w, o, mutate.value, k, Idle(env, w, k).live.value.content)
                      || (&& !Snapshot(w, obj) && k == 1 && o.mutations == 1
                          && LandsOnce(env, w, o, mutate.value, 1, obj.content))))
            && (o.error.Some? ==> o.world == Idle(env, w, k))
            && o.mutations <= Max0(maxRetries + 1)
  {
    if mutate.None? || maxRetries < 0 {
      return 0;
    }
    k := AttemptedLands(env, w, obj, mutate.value, 0, maxRetries);
  }

  // ----- which attempt ends the update, and how -----

  lemma {:induction false} IdleStep(env: Surroundings, w: World, k: nat)
    ensures Idle(env, w, k + 1) == Arrival(env, Idle(env, w, k))
    decreases k
  {
    if k > 0 {
      IdleStep(env, Arrival(env, w), k - 1);
    } else {
      assert Idle(env, Arrival(env, w), 0) == Arrival(env, w);
    }
  }

  /** What the a-th attempt re-reads; each later attempt makes two requests. */
  function Reread(env: Surroundings, w: World, a: nat): Result<Doc, ApiError>
    requires a > 0
  {
    Read(env, Idle(env, w, 2 * a - 1))
  }

  /** The copy the a-th attempt mutates: the caller's at first, then one read again. */
  function CopyAt(env: Surroundings, w: World, obj: Doc, a: nat): Option<Doc> {
    if a == 0 then Some(obj)
    else match Reread(env, w, a) case Ok(d) => Some(d) case Err(_) => None
  }

  /** What the server objects to in the write of the a-th attempt. */
  function ObjectionAt(env: Surroundings, w: World, obj: Doc, a: nat): Option<ApiError>
    requires CopyAt(env, w, obj, a).Some?
  {
    Refusal(env, Idle(env, w, 2 * a), CopyAt(env, w, obj, a).value)
  }

  predicate Conflicts(env: Surroundings, w: World, obj: Doc, a: nat) {
    CopyAt(env, w, obj, a).Some? && ObjectionAt(env, w, obj, a) == Some(Conflict)
  }

  function Mutated(d: Doc, mutate: MutateFn): Doc {
    Doc(mutate(d.content), d.version)
  }

  /** The loop as it enters the a-th attempt. */
  function From(env: Surroundings, w: World, obj: Doc, mutate: MutateFn, a: nat, maxRetries: int): Outcome {
    if a == 0 then Attempts(env, w, obj, mutate, 0, maxRetries, None)
    else
      var last := CopyAt(env, w, obj, a - 1);
      Attempts(env, Idle(env, w, 2 * a - 1), Mutated(if last.Some? then last.value else obj, mutate), mutate, a,
          maxRetries, Some(Conflict))
  }

  /** The write of the a-th attempt, wherever the loop has come from. */
  lemma AttemptAt(env: Surroundings, w: World, obj: Doc, mutate: MutateFn, a: nat, maxRetries: int)
    requires a <= maxRetries && CopyAt(env, w, obj, a).Some?
    ensures From(env, w, obj, mutate, a, maxRetries) ==
            Attempted(env, Idle(env, w, 2 * a), CopyAt(env, w, obj, a).value, mutate, a, maxRetries)
  {
    if a > 0 {
      IdleStep(env, w, 2 * a - 1);
    }
  }

  lemma ConflictGoesOn(env: Surroundings, w: World, obj: Doc, mutate: MutateFn, a: nat, maxRetries: int)
    requires a <= maxRetries && Conflicts(env, w, obj, a)
    ensures var rest := From(env, w, obj, mutate, a + 1, maxRetries);
            From(env, w, obj, mutate, a, maxRetries) == rest.(mutations := rest.mutations + 1)
  {
    AttemptAt(env, w, obj, mutate, a, maxRetries);
    IdleStep(env, w, 2 * a);
  }

  lemma {:induction false} ConflictsGoOn(
      env: Surroundings, w: World, obj: Doc, mutate: MutateFn, a: nat, maxRetries: int)
    requires a <= maxRetries + 1 && forall b: nat | b < a :: Conflicts(env, w, obj, b)
    ensures var rest := From(env, w, obj, mutate, a, maxRetries);
            From(env, w, obj, mutate, 0, maxRetries) == rest.(mutations := rest.mutations + a)
  {
    if a > 0 {
      ConflictsGoOn(env, w, obj, mutate, a - 1, maxRetries);
      ConflictGoesOn(env, w, obj, mutate, a - 1, maxRetries);
    }
  }

  /**
   * The a-th attempt is the first not to meet a conflict: the update ends with
   * it. Its write succeeds and the caller holds what was stored, or it is refused
   * or cannot re-read and the caller holds the last mutation tried.
   */
  lemma UpdateEndsWith(env: Surroundings, w: World, obj: Doc, mutate: MutateFn, maxRetries: int, a: nat)
    requires a <= maxRetries && (forall b: nat | b < a :: Conflicts(env, w, obj, b)) && !Conflicts(env, w, obj, a)
    ensures var o := Updated(env, w, obj, Some(mutate), maxRetries);
            match CopyAt(env, w, obj, a)
            case None =>
              && o.error == Some(Rereading(Reread(env, w, a).error)) && o.mutations == a
              && o.world == Idle(env, w, 2 * a)
              && CopyAt(env, w, obj, a - 1).Some? && o.obj == Mutated(CopyAt(env, w, obj, a - 1).value, mutate)
            case Some(copy) =>
              && o.mutations == a + 1
              && (ObjectionAt(env, w, obj, a).None? ==>
                    && o.error.None? && o.world.live == Some(o.obj)
                    && Idle(env, w, 2 * a + 1).live.Some?
                    && o.world == Landed(Idle(env, w, 2 * a + 1), mutate(copy.content).status))
              && (ObjectionAt(env, w, obj, a).Some? ==>
                    && o.error == Some(Updating(ObjectionAt(env, w, obj, a).value))
                    && o.world == Idle(env, w, 2 * a + 1) && o.obj == Mutated(copy, mutate))
  {
    ConflictsGoOn(env, w, obj, mutate, a, maxRetries);
    IdleStep(env, w, 2 * a);
    if CopyAt(env, w, obj, a).Some? {
      AttemptAt(env, w, obj, mutate, a, maxRetries);
    } else {
      IdleStep(env, w, 2 * a - 1);
      assert Conflicts(env, w, obj, a - 1);
    }
  }

  /** Every attempt allowed meets a conflict: the retries are exhausted, after exactly one more than the limit. */
  lemma UpdateIsExhausted(env: Surroundings, w: World, obj: Doc, mutate: MutateFn, maxRetries: int)
    requires maxRetries >= 0 && forall b: nat | b <= maxRetries :: Conflicts(env, w, obj, b)
    ensures var o := Updated(env, w, obj, Some(mutate), maxRetries);
            && o.error == Some(RetriesExhausted(Some(Conflict))) && o.mutations == maxRetries + 1
            && o.world == Idle(env, w, 2 * maxRetries + 1)
            && CopyAt(env, w, obj, maxRetries).Some?
            && o.obj == Mutated(CopyAt(env, w, obj, maxRetries).value, mutate)
  {
    ConflictsGoOn(env, w, obj, mutate, maxRetries + 1, maxRetries);
    assert Conflicts(env, w, obj, maxRetries);
  }

  /** Without a function to apply nothing is requested. */
  lemma NothingToApply(env: Surroundings, w: World, obj: Doc, maxRetries: int)
    ensures Updated(env, w, obj, None, maxRetries) == Outcome(w, obj, Some(NilMutateFn), 0)
    ensures forall mutate: MutateFn :: Updated(env, w, obj, Some(mutate), maxRetries).error != Some(NilMutateFn)
  {
    forall mutate: MutateFn ensures Updated(env, w, obj, Some(mutate), maxRetries).error != Some(NilMutateFn) {
      AttemptsAreMade(env, w, obj, mutate, 0, maxRetries, None);
    }
  }

  lemma {:induction false} AttemptsAreMade(
      env: Surroundings, w: World, obj: Doc, mutate: MutateFn, attempt: nat, maxRetries: int, lastErr: Option<ApiError>)
    ensures Attempts(env, w, obj, mutate, attempt, maxRetries, lastErr).error != Some(NilMutateFn)
    decreases maxRetries + 1 - attempt
  {
    if attempt <= maxRetries && (attempt == 0 || Read(env, w).Ok?) {
      var before := if attempt == 0 then w else Arrival(env, w);
      var copy := if attempt == 0 then obj else Read(env, w).value;
      var mutated := copy.(content := mutate(copy.content));
      if Refusal(env, before, mutated) == Some(Conflict) {
        AttemptsAreMade(env, Arrival(env, before), mutated, mutate, attempt + 1, maxRetries, Some(Conflict));
      }
    }
  }

  /** What the server answers: a fault before everything, then absence, then, to a write, a version that has moved. */
  lemma ServerAnswers(env: Surroundings, w: World, d: Doc)
    ensures var live, fault := Interfered(w, env.others(w.calls)).live, env.fault(w.calls);
            && (forall text :: fault == Some(text) <==> Read(env, w) == Err(Failed(text)))
            && (forall text :: fault == Some(text) <==> Refusal(env, w, d) == Some(Failed(text)))
            && (fault.None? ==>
                  && (Read(env, w) == Err(NotFound) <==> live.None?)
                  && (Refusal(env, w, d) == Some(NotFound) <==> live.None?)
                  && (live.Some? ==> Read(env, w) == Ok(live.value))
                  && (Refusal(env, w, d) == Some(Conflict) <==> live.Some? && live.value.version != d.version)
                  && (Refusal(env, w, d).None? <==> live.Some? && live.value.version == d.version))
  {
  }

  /** A write that is accepted takes nothing but the status; one that is refused, and a read, leave what others made. */
  lemma WritesLand(env: Surroundings, w: World, d: Doc)
    ensures var met, after := Interfered(w, env.others(w.calls)), Submitted(env, w, d);
            && after.calls == w.calls + 1 && Arrival(env, w) == met.(calls := w.calls + 1)
            && (Refusal(env, w, d).Some? ==> after == met.(calls := w.calls + 1))
            && (Refusal(env, w, d).None? ==>
                  && met.live.Some? && after.live.Some?
                  && after.live.value.content == Content(met.live.value.content.spec, d.content.status)
                  && (if after.live.value.content == met.live.value.content then after == met.(calls := w.calls + 1)
                      else after.live.value.version == after.clock == met.clock + 1))
  {
    InterferenceMakesNoCalls(w, env.others(w.calls));
  }

  lemma {:induction false} InterferenceMakesNoCalls(w: World, acts: seq<Act>)
    ensures Interfered(w, acts).calls == w.calls
    decreases |acts|
  {
    if acts != [] {
      InterferenceMakesNoCalls(Acted(w, acts[0]), acts[1..]);
    }
  }

  /** Others act one after the other. */
  lemma {:induction false} InterferedSays(w: World, acts: seq<Act>, a: Act)
    ensures Interfered(w, []) == w && Interfered(w, acts + [a]) == Acted(Interfered(w, acts), a)
    decreases |acts|
  {
    if acts == [] {
      assert [a][1..] == [] && acts + [a] == [a];
      assert Interfered(Acted(w, a), []) == Acted(w, a);
    } else {
      assert (acts + [a])[1..] == acts[1..] + [a];
      InterferedSays(Acted(w, acts[0]), acts[1..], a);
    }
  }

  /** A write of others is stored under a version never used before, unless it changes nothing; a removal removes. */
  lemma ActsAreStored(w: World, content: Content)
    ensures var after := Acted(w, Write(content));
            && after.live.Some? && after.live.value.content == content && after.calls == w.calls
            && (w.live.Some? && w.live.value.content == content ==> after == w)
            && (w.live.None? || w.live.value.content != content ==>
                  && after.live.value.version == after.clock > w.clock
                  && after.past == w.past[after.clock := content])
    ensures Acted(w, Remove) == World(None, w.clock, w.past, w.calls)
  {
  }

  /** With a negative limit nothing is tried and the loop reports exhausted retries without a cause. */
  lemma NegativeLimitTriesNothing(env: Surroundings, w: World, obj: Doc, mutate: MutateFn, maxRetries: int)
    ensures Updated(env, w, obj, Some(mutate), maxRetries).error == Some(RetriesExhausted(None)) <==> maxRetries < 0
    ensures maxRetries < 0 ==> Updated(env, w, obj, Some(mutate), maxRetries).world == w
  {
    if maxRetries >= 0 {
      CauseIsKnown(env, w, obj, mutate, 0, maxRetries);
    }
  }

  lemma {:induction false} CauseIsKnown(
      env: Surroundings, w: World, obj: Doc, mutate: MutateFn, attempt: nat, maxRetries: int)
    requires attempt <= maxRetries
    ensures Attempted(env, w, obj, mutate, attempt, maxRetries).error != Some(RetriesExhausted(None))
    decreases maxRetries + 1 - attempt
  {
    var mutated := obj.(content := mutate(obj.content));
    if Refusal(env, w, mutated) == Some(Conflict) {
      var after := Arrival(env, w);
      if attempt + 1 <= maxRetries && Read(env, after).Ok? {
        CauseIsKnown(env, Arrival(env, after), Read(env, after).value, mutate, attempt + 1, maxRetries);
      }
    }
  }

  /** The first attempt does not re-read: what it writes is the mutation of the caller's copy. */
  lemma FirstAttemptTrustsCaller(env: Surroundings, w: World, obj: Doc, mutate: MutateFn, maxRetries: int)
    requires maxRetries >= 0 && Refusal(env, w, obj).None?
    ensures var o, before := Updated(env, w, obj, Some(mutate), maxRetries), Arrival(env, w);
            && o.error.None? && o.mutations == 1
            && o.world == Landed(before, mutate(obj.content).status)
            && (o.world == Landed(before, mutate(before.live.value.content).status) <==>
                mutate(obj.content).status == mutate(before.live.value.content).status)
  {
    var before := Arrival(env, w);
    var mutated := obj.(content := mutate(obj.content));
    assert Refusal(env, w, mutated).None?;
    assert Updated(env, w, obj, Some(mutate), maxRetries) == Attempted(env, w, obj, mutate, 0, maxRetries);
    var stored := before.live.value.content;
    var x, y := mutate(obj.content).status, mutate(stored).status;
    if x != y {
      assert stored.(status := x) != stored.(status := y);
      assert Landed(before, x).live.value.content == stored.(status := x);
      assert Landed(before, y).live.value.content == stored.(status := y);
    }
  }

  /**
   * So the first write is right for every mutation if and only if the copy is an
   * unmodified read of what it replaces.
   */
  lemma FirstAttemptIsRightExactlyWhen(env: Surroundings, w: World, obj: Doc, maxRetries: int)
    requires maxRetries >= 0 && Refusal(env, w, obj).None?
    ensures (forall mutate: MutateFn ::
               Updated(env, w, obj, Some(mutate), maxRetries).world ==
               Landed(Arrival(env, w), mutate(Arrival(env, w).live.value.content).status))
       <==> obj.content == Arrival(env, w).live.value.content
  {
    var stored := Arrival(env, w).live.value.content;
    forall mutate: MutateFn
      ensures Updated(env, w, obj, Some(mutate), maxRetries).world == Landed(Arrival(env, w), mutate(stored).status)
         <==> mutate(obj.content).status == mutate(stored).status
    {
      FirstAttemptTrustsCaller(env, w, obj, mutate, maxRetries);
    }
    if obj.content != stored {
      var telling: MutateFn := (c: Content) => Content(c.spec, if c == stored then "stored" else "");
      assert |telling(stored).status| != |telling(obj.content).status|;
    }
  }

  /** Once the others are quiet a single retry is enough. */
  lemma QuietServerSucceeds(env: Surroundings, w: World, obj: Doc, mutate: MutateFn, maxRetries: int)
    requires maxRetries >= 1 && Arrival(env, w).live.Some?
    requires forall n | n > w.calls :: env.others(n) == []
    requires forall n | n >= w.calls :: env.fault(n) == None
    ensures var o := Updated(env, w, obj, Some(mutate), maxRetries); o.error.None? && o.mutations <= 2
  {
    var first := Arrival(env, w);
    var mutated := obj.(content := mutate(obj.content));
    assert Updated(env, w, obj, Some(mutate), maxRetries) == Attempted(env, w, obj, mutate, 0, maxRetries);
    if Refusal(env, w, mutated).Some? {
      assert Refusal(env, w, mutated) == Some(Conflict);
      assert Submitted(env, w, mutated) == first;
      assert first.calls == w.calls + 1;
      var second := Arrival(env, first);
      assert second == first.(calls := w.calls + 2);
      assert Arrival(env, second) == second.(calls := w.calls + 3);
      var again := Read(env, first).value;
      assert Refusal(env, second, again.(content := mutate(again.content))).None?;
      var last := Attempted(env, second, again, mutate, 1, maxRetries);
      assert last.error.None? && last.mutations == 1;
      assert Attempts(env, first, mutated, mutate, 1, maxRetries, Some(Conflict)) == last;
    }
  }
}
