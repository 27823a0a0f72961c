/**
 * The render cache: a memo keyed by the request's inputs, holding heap objects
 * of which only fresh copies ever reach the callers.
 */
module RenderCache {
  import opened Options

  type Key = seq<bv8>

  /** The inputs of a reconciliation request that a renderer may read. */
  datatype Input = Input(uid: string, generation: int, sources: seq<string>)

  type KeyFn = Input -> Result<Key, string>

  /** What rendering an input yields, and on which of its calls the renderer fails. */
  datatype Engine = Engine(output: Input -> seq<string>, fails: nat -> Option<string>)

  datatype RenderError = KeyFailed(text: string) | EmptyHash | RenderFailed(text: string)

  // ----- the memo on values -----

  /** The memo and what callers see: the resources of the request and its `Generated` flag. */
  datatype State = State(
    key: Key,
    cached: seq<string>,
    keyFn: Option<KeyFn>,
    calls: nat,
    resources: seq<string>,
    generated: bool)

  datatype Reply = Reply(state: State, error: Option<RenderError>)

  function ReRendered(e: Engine, s: State, key: Key, input: Input): Reply {
    match e.fails(s.calls)
    case Some(text) => Reply(s.(calls := s.calls + 1), Some(RenderFailed(text)))
    case None =>
      var out := e.output(input);
      Reply(State(key, out, s.keyFn, s.calls + 1, s.resources + out, true), None)
  }

  function Rendered(e: Engine, s: State, input: Input): Reply {
    match s.keyFn
    case None => ReRendered(e, s, [], input)
    case Some(f) =>
      match f(input)
      case Err(text) => Reply(s, Some(KeyFailed(text)))
      case Ok(key) =>
        if key == [] then Reply(s, Some(EmptyHash))
        else if key == s.key then Reply(s.(resources := s.resources + s.cached), None)
        else ReRendered(e, s, key, input)
  }

  /** What a render does to the memo and hands out does not depend on what the request holds already. */
  lemma RenderedFromEmpty(e: Engine, s: State, input: Input)
    ensures var r := Rendered(e, s.(resources := [], generated := false), input);
            Rendered(e, s, input) ==
            Reply(r.state.(resources := s.resources + r.state.resources, generated := s.generated || r.state.generated),
                r.error)
            && r.state.keyFn == s.keyFn && (r.error.Some? ==> r.state.resources == [] && !r.state.generated)
  {
    assert s.resources + [] == s.resources;
    assert forall t: seq<string> :: [] + t == t;
  }

  /** `Edit` is a caller changing one of its resources in place; `NewRequest` starts a cycle with an empty request. */
  datatype Event =
    | Render(input: Input)
    | Invalidate
    | SetKeyFn(keyFn: Option<KeyFn>)
    | Edit(at: nat, body: string)
    | NewRequest

  function Step(e: Engine, s: State, ev: Event): State {
    match ev
    case Render(input) => Rendered(e, s, input).state
    case Invalidate => s.(key := [])
    case SetKeyFn(keyFn) => s.(keyFn := keyFn)
    case Edit(at, body) => if at < |s.resources| then s.(resources := s.resources[at := body]) else s
    case NewRequest => s.(resources := [], generated := false)
  }

  function Run(e: Engine, s: State, evs: seq<Event>): State
    decreases |evs|
  {
    if evs == [] then s else Run(e, Step(e, s, evs[0]), evs[1..])
  }

  // ----- the objects -----

  /** An unstructured resource: a mutable object. */
  class Resource {
    var body: string

    constructor (body: string)
      ensures this.body == body
    {
      this.body := body;
    }
  }

  function Bodies(rs: seq<Resource>): (r: seq<string>)
    reads rs
    ensures |r| == |rs| && forall i | 0 <= i < |rs| :: r[i] == rs[i].body
  {
    seq(|rs|, i requires 0 <= i < |rs| reads rs => rs[i].body)
  }

  function Footprint(rs: seq<Resource>): set<Resource> {
    set r | r in rs
  }

  ghost predicate NoRepeats(rs: seq<Resource>) {
    forall i, j | 0 <= i < j < |rs| :: rs[i] != rs[j]
  }

  lemma Joined(a: seq<Resource>, b: seq<Resource>)
    requires NoRepeats(a) && NoRepeats(b) && Footprint(a) !! Footprint(b)
    ensures NoRepeats(a + b) && Footprint(a + b) == Footprint(a) + Footprint(b)
    ensures Bodies(a + b) == Bodies(a) + Bodies(b)
  {
    forall i, j | 0 <= i < j < |a + b| ensures (a + b)[i] != (a + b)[j] {
      if i < |a| <= j {
        assert a[i] in Footprint(a) && b[j - |a|] in Footprint(b);
      }
    }
    assert forall x :: x in a + b <==> x in a || x in b;
  }

  /** `Clone`: a deep copy of every element. */
  method Clone(l: seq<Resource>) returns (result: seq<Resource>)
    ensures Bodies(result) == Bodies(l) && NoRepeats(result)
    ensures fresh(Footprint(result))
  {
    result := [];
    for i := 0 to |l|
      invariant |result| == i && NoRepeats(result) && fresh(Footprint(result))
      invariant forall j | 0 <= j < i :: result[j].body == l[j].body
    {
      var copy := new Resource(l[i].body);
      assert Footprint(result + [copy]) == Footprint(result) + {copy};
      result := result + [copy];
    }
  }

  /** A render function with a count of its executions; every execution builds new objects. */
  class Renderer {
    const engine: Engine
    var calls: nat

    constructor (engine: Engine)
      ensures this.engine == engine && calls == 0
    {
      this.engine := engine;
      calls := 0;
    }

    method Execute(input: Input) returns (r: Result<seq<Resource>, string>)
      modifies this`calls
      ensures calls == old(calls) + 1
      ensures match engine.fails(old(calls))
              case Some(text) => r == Err(text)
              case None => r.Ok? && Bodies(r.value) == engine.output(input) && fresh(Footprint(r.value))
    {
      var at := calls;
      calls := calls + 1;
      match engine.fails(at)
      case Some(text) =>
        r := Err(text);
      case None =>
        var bodies, res := engine.output(input), [];
        for i := 0 to |bodies|
          invariant |res| == i && fresh(Footprint(res)) && calls == at + 1
          invariant forall j | 0 <= j < i :: res[j].body == bodies[j]
        {
          var one := new Resource(bodies[i]);
          assert Footprint(res + [one]) == Footprint(res) + {one};
          res := res + [one];
        }
        r := Ok(res);
    }
  }

  datatype Answer = Answer(resources: seq<Resource>, acted: bool)

  class Cacher {
    var cachedResources: seq<Resource>
    var cachingKey: Key

    constructor ()
      ensures cachedResources == [] && cachingKey == []
    {
      cachedResources, cachingKey := [], [];
    }

    method InvalidateCache()
      modifies this
      ensures cachingKey == [] && cachedResources == old(cachedResources)
    {
      cachingKey := [];
    }

    method ReRender(key: Key, r: Renderer, input: Input) returns (answer: Result<Answer, RenderError>)
      modifies this, r
      ensures r.calls == old(r.calls) + 1
      ensures match r.engine.fails(old(r.calls))
              case Some(text) =>
                && answer == Err(RenderFailed(text))
                && cachingKey == old(cachingKey) && cachedResources == old(cachedResources)
              case None =>
                && answer == Ok(Answer(cachedResources, true)) && cachingKey == key
                && fresh(Footprint(cachedResources)) && Bodies(cachedResources) == r.engine.output(input)
    {
      var res := r.Execute(input);
      if res.Err? {
        return Err(RenderFailed(res.error));
      }
      cachingKey := key;
      cachedResources := res.value;
      return Ok(Answer(res.value, true));
    }

    method Render(keyFn: Option<KeyFn>, r: Renderer, input: Input) returns (answer: Result<Answer, RenderError>)
      modifies this, r
      ensures cachedResources == old(cachedResources) || fresh(Footprint(cachedResources))
      ensures answer.Ok? ==> answer.value.resources == cachedResources
      ensures answer.Ok? ==> (answer.value.acted <==> r.calls == old(r.calls) + 1)
      ensures var before := State(old(cachingKey), old(Bodies(cachedResources)), keyFn, old(r.calls), [], false);
              var expected := Rendered(r.engine, before, input);
              && answer.Err? == expected.error.Some? && (answer.Err? ==> Some(answer.error) == expected.error)
              && cachingKey == expected.state.key && Bodies(cachedResources) == expected.state.cached
              && r.calls == expected.state.calls
              && (answer.Ok? ==> answer.value.acted == expected.state.generated)
              && (answer.Ok? ==> Bodies(cachedResources) == expected.state.resources)
    {
      if keyFn.None? {
        answer := ReRender([], r, input);
        return;
      }
      var key := keyFn.value(input);
      if key.Err? {
        return Err(KeyFailed(key.error));
      }
      if |key.value| == 0 {
        return Err(EmptyHash);
      }
      if key.value == cachingKey {
        return Ok(Answer(cachedResources, false));
      }
      answer := ReRender(key.value, r, input);
    }
  }

  /** The request a controller passes through its actions. */
  class ReconciliationRequest {
    var resources: seq<Resource>
    var generated: bool

    constructor ()
      ensures resources == [] && !generated
    {
      resources, generated := [], false;
    }

    method AppendCopies(res: seq<Resource>)
      requires NoRepeats(resources)
      modifies this`resources
      ensures NoRepeats(resources) && fresh(Footprint(resources) - old(Footprint(resources)))
      ensures Bodies(resources) == old(Bodies(resources)) + Bodies(res)
    {
      var copies := Clone(res);
      assert Footprint(resources) !! Footprint(copies);
      hide NoRepeats, Footprint, Bodies;
      Joined(resources, copies);
      resources := resources + copies;
    }
  }

  class ResourceCacher {
    const cacher: Cacher
    var keyFn: Option<KeyFn>

    constructor ()
      ensures keyFn == None && fresh(cacher) && cacher.cachedResources == [] && cacher.cachingKey == []
    {
      cacher := new Cacher();
      keyFn := None;
    }

    /** The cache and the request share no object. */
    ghost predicate Separate(rr: ReconciliationRequest)
      reads this, cacher, rr
    {
      NoRepeats(rr.resources) && Footprint(rr.resources) !! Footprint(cacher.cachedResources)
    }

    function Now(r: Renderer, rr: ReconciliationRequest): State
      reads this, cacher, cacher.cachedResources, r, rr, rr.resources
    {
      State(cacher.cachingKey, Bodies(cacher.cachedResources), keyFn, r.calls, Bodies(rr.resources), rr.generated)
    }

    method SetKeyFn(key: Option<KeyFn>)
      modifies this
      ensures keyFn == key
    {
      keyFn := key;
    }

    method Render(rr: ReconciliationRequest, r: Renderer, input: Input) returns (error: Option<RenderError>)
      requires Separate(rr)
      modifies cacher, r, rr
      ensures Separate(rr)
      ensures Reply(Now(r, rr), error) == Rendered(r.engine, old(Now(r, rr)), input)
      ensures fresh(Footprint(rr.resources) - old(Footprint(rr.resources)))
    {
      hide Rendered;
      ghost var before := Now(r, rr);
      RenderedFromEmpty(r.engine, before, input);
      var answer := cacher.Render(keyFn, r, input);
      if answer.Err? {
        return Some(answer.error);
      }
      var res := answer.value.resources;
      if answer.value.acted {
        rr.generated := true;
      }
      rr.AppendCopies(res);
      return None;
    }
  }

  /**
   * Any history of renders, invalidations, key functions and callers editing what
   * they were given keeps the cache and the request apart and follows the memo on
   * values, in which an edit never touches the cache.
   */
  method Perform(rc: ResourceCacher, r: Renderer, rr: ReconciliationRequest, ev: Event)
    requires rc.Separate(rr)
    modifies rc, rc.cacher, r, rr, rr.resources
    ensures rc.Separate(rr)
    ensures rc.Now(r, rr) == Step(r.engine, old(rc.Now(r, rr)), ev)
    ensures fresh(Footprint(rr.resources) - old(Footprint(rr.resources)))
  {
    match ev
    case Render(input) =>
      var _ := rc.Render(rr, r, input);
    case Invalidate =>
      rc.cacher.InvalidateCache();
    case SetKeyFn(keyFn) =>
      rc.SetKeyFn(keyFn);
    case Edit(at, body) =>
      if at < |rr.resources| {
        assert rr.resources[at] in Footprint(rr.resources);
        assert forall x | x in rc.cacher.cachedResources :: x in Footprint(rc.cacher.cachedResources);
        rr.resources[at].body := body;
        assert forall i | 0 <= i < |rr.resources| && i != at :: rr.resources[i].body == old(rr.resources[i].body);
        assert forall x | x in rc.cacher.cachedResources :: x.body == old(x.body);
        assert rc.Now(r, rr).resources == old(rc.Now(r, rr)).resources[at := body];
      }
    case NewRequest =>
      rr.resources, rr.generated := [], false;
  }

  method PerformAll(rc: ResourceCacher, r: Renderer, rr: ReconciliationRequest, evs: seq<Event>)
    requires rc.Separate(rr)
    modifies rc, rc.cacher, r, rr, rr.resources
    ensures rc.Separate(rr)
    ensures rc.Now(r, rr) == Run(r.engine, old(rc.Now(r, rr)), evs)
  {
    for i := 0 to |evs|
      invariant rc.Separate(rr)
      invariant fresh(Footprint(rr.resources) - old(Footprint(rr.resources)))
      invariant Run(r.engine, rc.Now(r, rr), evs[i..]) == Run(r.engine, old(rc.Now(r, rr)), evs)
    {
      assert evs[i..][0] == evs[i] && evs[i..][1..] == evs[i + 1..];
      Perform(rc, r, rr, evs[i]);
    }
  }

  // ----- one render -----

  /** The renderer has to run: no key function, or a proper key that is not the one in the cache. */
  predicate Misses(s: State, input: Input) {
    s.keyFn.None? || (s.keyFn.value(input).Ok? && s.keyFn.value(input).value !in {[], s.key})
  }

  /** Each way a render can end, and how the renderer, the memo and the request are left. */
  lemma RenderEndsExactly(e: Engine, s: State, input: Input)
    ensures var r := Rendered(e, s, input);
            && (forall text :: r.error == Some(KeyFailed(text)) <==>
                  s.keyFn.Some? && s.keyFn.value(input) == Err(text))
            && (r.error == Some(EmptyHash) <==> s.keyFn.Some? && s.keyFn.value(input) == Ok([]))
            && (forall text :: r.error == Some(RenderFailed(text)) <==>
                  Misses(s, input) && e.fails(s.calls) == Some(text))
            && r.state.calls == (if Misses(s, input) then s.calls + 1 else s.calls)
            && r.state.keyFn == s.keyFn
            && (r.error.Some? || !Misses(s, input) ==> r.state.key == s.key && r.state.cached == s.cached)
            && (r.error.Some? ==> r.state.resources == s.resources)
            && (r.state.generated <==> s.generated || (Misses(s, input) && r.error.None?))
  {
  }

  /** After a render that ran, any input of the same key is served from the memo, without running the renderer. */
  lemma RenderRemembers(e: Engine, s: State, input: Input, other: Input)
    requires Misses(s, input) && Rendered(e, s, input).error.None?
    ensures var after := Rendered(e, s, input).state;
            && after.cached == e.output(input) && after.resources == s.resources + e.output(input)
            && (s.keyFn.None? ==> after.key == [])
            && (s.keyFn.Some? ==> s.keyFn.value(input) == Ok(after.key))
            && (s.keyFn.Some? && s.keyFn.value(other) == s.keyFn.value(input) ==>
                  var again := Rendered(e, after, other);
                  && again.error.None? && again.state.calls == after.calls
                  && again.state.resources == after.resources + e.output(input)
                  && (again.state.generated <==> after.generated))
  {
  }

  /** Callers' edits and new requests never reach the memo; an invalidation makes the next render miss. */
  lemma EventsSpareMemo(e: Engine, s: State, at: nat, body: string, input: Input)
    ensures var t := Step(e, s, Edit(at, body));
            && t == s.(resources := t.resources) && |t.resources| == |s.resources|
            && forall i | 0 <= i < |s.resources| :: t.resources[i] == if i == at then body else s.resources[i]
    ensures Step(e, s, NewRequest) == State(s.key, s.cached, s.keyFn, s.calls, [], false)
    ensures var t := Step(e, s, Invalidate);
            && t == s.(key := t.key)
            && (Misses(t, input) <==> s.keyFn.None? || IsKey(s.keyFn.value(input)))
  {
  }

  // ----- what the cache serves -----

  /** Equal keys, under whichever key functions of a run, stand for equal renderings. */
  ghost predicate Determines(e: Engine, fns: seq<KeyFn>) {
    forall f, g, i, j | f in fns && g in fns && IsKey(f(i)) && f(i) == g(j) :: e.output(i) == e.output(j)
  }

  /** An answer of a key function that the cache works with: an empty key is an error. */
  predicate IsKey(r: Result<Key, string>) {
    r.Ok? && r.value != []
  }

  /** A non-empty key in the cache stands for an input whose rendering is the one cached. */
  ghost predicate Coherent(e: Engine, fns: seq<KeyFn>, s: State) {
    && (s.keyFn.Some? ==> s.keyFn.value in fns)
    && (s.key != [] ==> exists f, i | f in fns :: f(i) == Ok(s.key) && e.output(i) == s.cached)
  }

  ghost predicate UsesOnly(fns: seq<KeyFn>, evs: seq<Event>) {
    forall ev | ev in evs && ev.SetKeyFn? && ev.keyFn.Some? :: ev.keyFn.value in fns
  }

  lemma StepKeepsCoherent(e: Engine, fns: seq<KeyFn>, s: State, ev: Event)
    requires Coherent(e, fns, s) && UsesOnly(fns, [ev])
    ensures Coherent(e, fns, Step(e, s, ev))
  {
    assert ev in [ev];
    if ev.Render? && s.keyFn.Some? {
      var f := s.keyFn.value;
      var after := Step(e, s, ev);
      if f(ev.input).Ok? && after.key != s.key {
        assert f(ev.input) == Ok(after.key) && e.output(ev.input) == after.cached;
      }
    }
  }

  lemma {:induction false} RunKeepsCoherent(e: Engine, fns: seq<KeyFn>, s: State, evs: seq<Event>)
    requires Coherent(e, fns, s) && UsesOnly(fns, evs)
    ensures Coherent(e, fns, Run(e, s, evs))
    decreases |evs|
  {
    if evs != [] {
      assert evs[0] in evs && forall ev | ev in evs[1..] :: ev in evs;
      StepKeepsCoherent(e, fns, s, evs[0]);
      RunKeepsCoherent(e, fns, Step(e, s, evs[0]), evs[1..]);
    }
  }

  function Empty(): State {
    State([], [], None, 0, [], false)
  }

  /**
   * After any history from an empty cache, a successful render hands out exactly
   * what rendering the current input would, and it says so truthfully: the
   * request is flagged when, and only when, the renderer ran.
   */
  lemma RenderServesFresh(e: Engine, fns: seq<KeyFn>, evs: seq<Event>, input: Input)
    requires Determines(e, fns) && UsesOnly(fns, evs)
    ensures var s := Run(e, Empty(), evs);
            var r := Rendered(e, s, input);
            && (r.error.None? ==> r.state.resources == s.resources + e.output(input))
            && (r.error.None? ==> (r.state.generated <==> s.generated || r.state.calls == s.calls + 1))
            && (r.error.Some? ==> r.state == s.(calls := r.state.calls))
  {
    var s := Run(e, Empty(), evs);
    RunKeepsCoherent(e, fns, Empty(), evs);
    if s.keyFn.Some? {
      var f := s.keyFn.value;
      if f(input).Ok? && f(input).value == s.key && s.key != [] {
        var g, i :| g in fns && g(i) == Ok(s.key) && e.output(i) == s.cached;
        assert f(input) == g(i);
      }
    }
  }

  /** The input of the last render of a history that ran the renderer to success. */
  function LastRendered(e: Engine, s: State, evs: seq<Event>, before: Option<Input>): Option<Input>
    decreases |evs|
  {
    if evs == [] then before
    else
      var ran := evs[0].Render? && Rendered(e, s, evs[0].input).error.None? && Step(e, s, evs[0]).calls != s.calls;
      LastRendered(e, Step(e, s, evs[0]), evs[1..], if ran then Some(evs[0].input) else before)
  }

  lemma {:induction false} CachedIsLastRendered(e: Engine, s: State, evs: seq<Event>, before: Option<Input>)
    requires s.key != [] ==> before.Some? && s.cached == e.output(before.value)
    ensures var t, last := Run(e, s, evs), LastRendered(e, s, evs, before);
            t.key != [] ==> last.Some? && t.cached == e.output(last.value)
    decreases |evs|
  {
    if evs != [] {
      var ran := evs[0].Render? && Rendered(e, s, evs[0].input).error.None? && Step(e, s, evs[0]).calls != s.calls;
      CachedIsLastRendered(e, Step(e, s, evs[0]), evs[1..], if ran then Some(evs[0].input) else before);
    }
  }

  /**
   * Whatever the key functions, a hit after any history hands out the rendering
   * of the input rendered last, without running the renderer: it is right exactly
   * when that input renders like the current one.
   */
  lemma HitIsFreshExactlyWhen(e: Engine, evs: seq<Event>, input: Input)
    requires var s := Run(e, Empty(), evs);
             s.key != [] && s.keyFn.Some? && s.keyFn.value(input) == Ok(s.key)
    ensures var s, last := Run(e, Empty(), evs), LastRendered(e, Empty(), evs, None);
            var r := Rendered(e, s, input);
            && last.Some? && r.error.None? && r.state.calls == s.calls
            && (r.state.resources == s.resources + e.output(input) <==> e.output(last.value) == e.output(input))
  {
    CachedIsLastRendered(e, Empty(), evs, None);
    var s, out := Run(e, Empty(), evs), e.output(input);
    var served := s.resources + s.cached;
    assert s.cached == served[|s.resources|..];
    assert served == s.resources + out ==> served[|s.resources|..] == out;
  }

  /** A successful render hands out what rendering the current input would. */
  ghost predicate Fresh(e: Engine, s: State, input: Input) {
    var r := Rendered(e, s, input);
    r.error.None? ==> r.state.resources == s.resources + e.output(input)
  }

  /** The cache with one key function after failing renders only. */
  function Barren(f: KeyFn, calls: nat): State {
    State([], [], Some(f), calls, [], false)
  }

  function Retries(input: Input, n: nat): seq<Event> {
    seq(n, _ => Render(input))
  }

  lemma {:induction false} RetriesFail(e: Engine, f: KeyFn, input: Input, from: nat, n: nat, rest: seq<Event>)
    requires IsKey(f(input)) && forall k: nat | from <= k < from + n :: e.fails(k).Some?
    ensures Run(e, Barren(f, from), Retries(input, n) + rest) == Run(e, Barren(f, from + n), rest)
    decreases n
  {
    var evs := Retries(input, n) + rest;
    if n == 0 {
      assert evs == rest;
    } else {
      assert evs[0] == Render(input) && evs[1..] == Retries(input, n - 1) + rest;
      assert Step(e, Barren(f, from), evs[0]) == Barren(f, from + 1);
      RetriesFail(e, f, input, from + 1, n - 1, rest);
    }
  }

  /**
   * The history that shows a collision: fill the cache under one key function,
   * ask for the other input under the other.
   */
  function Colliding(f: KeyFn, g: KeyFn, first: Input, n: nat): seq<Event> {
    [SetKeyFn(Some(f))] + (Retries(first, n) + [Render(first), SetKeyFn(Some(g))])
  }

  lemma CollisionShows(e: Engine, f: KeyFn, g: KeyFn, first: Input, second: Input, n: nat)
    requires IsKey(f(first)) && f(first) == g(second) && e.output(first) != e.output(second)
    requires e.fails(n).None? && forall k: nat | k < n :: e.fails(k).Some?
    ensures !Fresh(e, Run(e, Empty(), Colliding(f, g, first, n)), second)
  {
    var evs, rest := Colliding(f, g, first, n), [Render(first), SetKeyFn(Some(g))];
    assert evs[1..] == Retries(first, n) + rest;
    assert Step(e, Empty(), evs[0]) == Barren(f, 0);
    RetriesFail(e, f, first, 0, n, rest);
    var filled := Step(e, Barren(f, n), rest[0]);
    assert rest[1..] == [SetKeyFn(Some(g))] && rest[1..][1..] == [];
    var s := Step(e, filled, rest[1..][0]);
    assert Run(e, Barren(f, n), rest) == Run(e, filled, rest[1..]) == Run(e, s, []) == s;
    assert s.key == f(first).value && s.cached == e.output(first) && s.resources == [] + e.output(first);
    var r := Rendered(e, s, second);
    assert r.state.resources == s.resources + e.output(first);
    assert (s.resources + e.output(first))[|s.resources|..] == e.output(first);
    assert (s.resources + e.output(second))[|s.resources|..] == e.output(second);
  }

  lemma FirstSuccess(e: Engine, n: nat) returns (m: nat)
    requires e.fails(n).None?
    ensures e.fails(m).None? && forall k: nat | k < m :: e.fails(k).Some?
  {
    m := 0;
    while e.fails(m).Some?
      invariant m <= n && forall k: nat | k < m :: e.fails(k).Some?
      decreases n - m
    {
      m := m + 1;
    }
  }

  /**
   * Every render after every history that uses these key functions is fresh,
   * exactly when equal keys stand for equal renderings (or nothing ever renders).
   */
  lemma AlwaysFreshExactlyWhen(e: Engine, fns: seq<KeyFn>)
    ensures (forall evs, input | UsesOnly(fns, evs) :: Fresh(e, Run(e, Empty(), evs), input))
            <==> Determines(e, fns) || forall n :: e.fails(n).Some?
  {
    hide Fresh, UsesOnly, Run, Colliding;
    if Determines(e, fns) {
      hide Determines;
      forall evs, input | UsesOnly(fns, evs) ensures Fresh(e, Run(e, Empty(), evs), input) {
        ServesFresh(e, fns, evs, input);
      }
    } else if n: nat :| e.fails(n).None? {
      var f, g, i, j :| f in fns && g in fns && IsKey(f(i)) && f(i) == g(j) && e.output(i) != e.output(j);
      var m := FirstSuccess(e, n);
      var evs := Colliding(f, g, i, m);
      hide Determines;
      CollisionShows(e, f, g, i, j, m);
      CollidingUsesOnly(fns, f, g, i, m);
      assert UsesOnly(fns, evs);
    } else {
      forall evs, input ensures Fresh(e, Run(e, Empty(), evs), input) {
        NothingServed(e, evs, input);
      }
    }
  }

  lemma ServesFresh(e: Engine, fns: seq<KeyFn>, evs: seq<Event>, input: Input)
    requires Determines(e, fns) && UsesOnly(fns, evs)
    ensures Fresh(e, Run(e, Empty(), evs), input)
  {
    hide Run, Determines, UsesOnly;
    RenderServesFresh(e, fns, evs, input);
  }

  lemma CollidingUsesOnly(fns: seq<KeyFn>, f: KeyFn, g: KeyFn, first: Input, n: nat)
    requires f in fns && g in fns
    ensures UsesOnly(fns, Colliding(f, g, first, n))
  {
  }

  lemma NothingServed(e: Engine, evs: seq<Event>, input: Input)
    requires forall n :: e.fails(n).Some?
    ensures Fresh(e, Run(e, Empty(), evs), input)
  {
    hide Run;
    NothingCached(e, Empty(), evs);
  }

  /** If the renderer always fails, no key is ever cached and no render succeeds. */
  lemma {:induction false} NothingCached(e: Engine, s: State, evs: seq<Event>)
    requires s.key == [] && forall n :: e.fails(n).Some?
    ensures Run(e, s, evs).key == []
    decreases |evs|
  {
    if evs != [] {
      NothingCached(e, Step(e, s, evs[0]), evs[1..]);
    }
  }

  /** An invalidated cache, and one without a key function, always runs the renderer. */
  lemma NothingToHit(e: Engine, s: State, input: Input)
    requires s.key == [] || s.keyFn.None?
    ensures var r := Rendered(e, s, input);
            r.error.None? ==> r.state.calls == s.calls + 1 && r.state.resources == s.resources + e.output(input)
  {
  }
}
