/** Stable sorting, as `slices.SortStableFunc` and `sort.SliceStable` promise it, and filtering. */
module Sorting {
  import opened Options

  ghost predicate TotalPreorder<T(!new)>(le: (T, T) -> bool) {
    && (forall x, y :: le(x, y) || le(y, x))
    && (forall x, y, z :: le(x, y) && le(y, z) ==> le(x, z))
  }

  ghost predicate Sorted<T>(le: (T, T) -> bool, s: seq<T>) {
    forall i, j | 0 <= i < j < |s| :: le(s[i], s[j])
  }

  /** Puts `x` in front of the first element it may precede. */
  function Insert<T>(le: (T, T) -> bool, x: T, s: seq<T>): seq<T> {
    if s == [] then [x]
    else if le(x, s[0]) then [x] + s
    else [s[0]] + Insert(le, x, s[1..])
  }

  function StableSort<T>(le: (T, T) -> bool, s: seq<T>): seq<T> {
    if s == [] then [] else Insert(le, s[0], StableSort(le, s[1..]))
  }

  function Filter<T>(p: T -> bool, s: seq<T>): seq<T> {
    if s == [] then []
    else if p(s[0]) then [s[0]] + Filter(p, s[1..])
    else Filter(p, s[1..])
  }

  /** The first element satisfying `p`, if any. */
  function First<T>(p: T -> bool, s: seq<T>): Option<T> {
    if s == [] then None
    else if p(s[0]) then Some(s[0])
    else First(p, s[1..])
  }

  lemma FirstCons<T>(p: T -> bool, x: T, s: seq<T>)
    ensures First(p, [x] + s) == if p(x) then Some(x) else First(p, s)
  {
    assert ([x] + s)[1..] == s;
  }

  lemma FilterCons<T>(p: T -> bool, x: T, s: seq<T>)
    ensures Filter(p, [x] + s) == if p(x) then [x] + Filter(p, s) else Filter(p, s)
  {
    assert ([x] + s)[1..] == s;
  }

  lemma {:induction false} InsertPermutes<T>(le: (T, T) -> bool, x: T, s: seq<T>)
    ensures multiset(Insert(le, x, s)) == multiset{x} + multiset(s)
  {
    if s == [] || le(x, s[0]) {
    } else {
      InsertPermutes(le, x, s[1..]);
      assert s == [s[0]] + s[1..];
    }
  }

  lemma {:induction false} SortPermutes<T>(le: (T, T) -> bool, s: seq<T>)
    ensures multiset(StableSort(le, s)) == multiset(s)
    ensures |StableSort(le, s)| == |s|
  {
    if s != [] {
      SortPermutes(le, s[1..]);
      InsertPermutes(le, s[0], StableSort(le, s[1..]));
      assert s == [s[0]] + s[1..];
    }
    assert |multiset(StableSort(le, s))| == |multiset(s)|;
  }

  lemma SortKeepsMembers<T>(le: (T, T) -> bool, s: seq<T>)
    ensures forall x :: x in StableSort(le, s) <==> x in s
  {
    SortPermutes(le, s);
    forall x ensures x in StableSort(le, s) <==> x in s {
      assert x in multiset(StableSort(le, s)) <==> x in StableSort(le, s);
    }
  }

  lemma {:induction false} InsertSorts<T(!new)>(le: (T, T) -> bool, x: T, s: seq<T>)
    requires TotalPreorder(le) && Sorted(le, s)
    ensures Sorted(le, Insert(le, x, s))
  {
    if s == [] || le(x, s[0]) {
    } else {
      InsertSorts(le, x, s[1..]);
      InsertPermutes(le, x, s[1..]);
      var rest := Insert(le, x, s[1..]);
      forall y | y in rest ensures le(s[0], y) {
        assert y in multiset(rest);
      }
    }
  }

  lemma {:induction false} SortSorts<T(!new)>(le: (T, T) -> bool, s: seq<T>)
    requires TotalPreorder(le)
    ensures Sorted(le, StableSort(le, s))
  {
    if s != [] {
      SortSorts(le, s[1..]);
      InsertSorts(le, s[0], StableSort(le, s[1..]));
    }
  }

  /** Sorting an already sorted list moves nothing. */
  lemma {:induction false} SortOfSorted<T>(le: (T, T) -> bool, s: seq<T>)
    requires Sorted(le, s)
    ensures StableSort(le, s) == s
  {
    if s != [] {
      SortOfSorted(le, s[1..]);
      assert s == [s[0]] + s[1..];
    }
  }

  lemma SortIdempotent<T(!new)>(le: (T, T) -> bool, s: seq<T>)
    requires TotalPreorder(le)
    ensures StableSort(le, StableSort(le, s)) == StableSort(le, s)
  {
    SortSorts(le, s);
    SortOfSorted(le, StableSort(le, s));
  }

  ghost predicate Antisymmetric<T>(le: (T, T) -> bool, s: seq<T>) {
    forall x, y | x in s && y in s && le(x, y) && le(y, x) :: x == y
  }

  lemma TailsAgree<T>(s: seq<T>, t: seq<T>)
    requires s != [] && t != [] && s[0] == t[0] && multiset(s) == multiset(t)
    ensures multiset(s[1..]) == multiset(t[1..])
  {
    assert s == [s[0]] + s[1..] && t == [s[0]] + t[1..];
    assert multiset(s[1..]) == multiset(s) - multiset{s[0]};
    assert multiset(t[1..]) == multiset(t) - multiset{s[0]};
  }

  lemma SortedHeads<T>(le: (T, T) -> bool, s: seq<T>, t: seq<T>)
    requires Sorted(le, s) && Sorted(le, t) && multiset(s) == multiset(t)
    requires Antisymmetric(le, s) && s != [] && t != []
    ensures s[0] == t[0]
  {
    assert t[0] in multiset(s) && s[0] in multiset(t);
    var i :| 0 <= i < |s| && s[i] == t[0];
    var j :| 0 <= j < |t| && t[j] == s[0];
    if i > 0 && j > 0 {
      assert le(s[0], t[0]) && le(t[0], s[0]);
    }
  }

  /** On elements the order tells apart, a multiset has one sorted arrangement. */
  lemma {:induction false} SortedUnique<T>(le: (T, T) -> bool, s: seq<T>, t: seq<T>)
    requires Sorted(le, s) && Sorted(le, t) && multiset(s) == multiset(t)
    requires Antisymmetric(le, s)
    ensures s == t
    decreases |s|
  {
    assert |multiset(s)| == |s| && |multiset(t)| == |t|;
    if s != [] {
      SortedHeads(le, s, t);
      TailsAgree(s, t);
      SortedUnique(le, s[1..], t[1..]);
    }
  }

  /** A sort forgets the arrangement of its input when the order tells its elements apart. */
  lemma SortForgetsOrder<T(!new)>(le: (T, T) -> bool, s: seq<T>, t: seq<T>)
    requires TotalPreorder(le) && multiset(s) == multiset(t)
    requires Antisymmetric(le, s)
    ensures StableSort(le, s) == StableSort(le, t)
  {
    SortSorts(le, s);
    SortSorts(le, t);
    SortPermutes(le, s);
    SortPermutes(le, t);
    SortKeepsMembers(le, s);
    SortedUnique(le, StableSort(le, s), StableSort(le, t));
  }

  lemma {:induction false} FilterMembers<T>(p: T -> bool, s: seq<T>)
    ensures forall x :: x in Filter(p, s) <==> x in s && p(x)
  {
    if s != [] {
      FilterMembers(p, s[1..]);
      assert s == [s[0]] + s[1..];
    }
  }

  /** Strictly increasing positions below `n`. */
  ghost predicate Positions(at: seq<nat>, n: nat) {
    && (forall k | 0 <= k < |at| :: at[k] < n)
    && forall k, l | 0 <= k < l < |at| :: at[k] < at[l]
  }

  /** `at` lists the positions of all elements satisfying `p`, in order. */
  ghost predicate Finds<T>(p: T -> bool, s: seq<T>, at: seq<nat>) {
    Positions(at, |s|) && forall i: nat | i < |s| :: p(s[i]) <==> i in at
  }

  /** `r` holds the elements of `s` at these positions. */
  ghost predicate TakenAt<T>(s: seq<T>, at: seq<nat>, r: seq<T>) {
    |r| == |at| && forall k | 0 <= k < |at| :: at[k] < |s| && r[k] == s[at[k]]
  }

  /** The same positions with one element put in front. */
  function Shifted(at: seq<nat>): (r: seq<nat>)
    ensures |r| == |at| && forall k | 0 <= k < |at| :: r[k] == at[k] + 1
    ensures forall i: nat :: i in r <==> i > 0 && i - 1 in at
  {
    var r := seq(|at|, k requires 0 <= k < |at| => at[k] + 1);
    assert forall i: nat | i > 0 && i - 1 in at :: i in r by {
      forall i: nat | i > 0 && i - 1 in at ensures i in r {
        var k :| 0 <= k < |at| && at[k] == i - 1;
        assert r[k] == i;
      }
    }
    r
  }

  lemma FindsStep<T>(p: T -> bool, s: seq<T>, rest: seq<nat>)
    requires s != [] && Finds(p, s[1..], rest)
    ensures Finds(p, s, if p(s[0]) then [0] + Shifted(rest) else Shifted(rest))
  {
    forall i: nat | i < |s| && i > 0 ensures p(s[i]) <==> i in Shifted(rest) {
      assert s[1..][i - 1] == s[i];
    }
  }

  lemma TakenStep<T>(s: seq<T>, rest: seq<nat>, r: seq<T>)
    requires s != [] && TakenAt(s[1..], rest, r)
    ensures TakenAt(s, Shifted(rest), r) && TakenAt(s, [0] + Shifted(rest), [s[0]] + r)
  {
  }

  /** A filter keeps exactly the elements satisfying `p`, each once and in order. */
  lemma {:induction false} FilterKeepsOrder<T>(p: T -> bool, s: seq<T>) returns (at: seq<nat>)
    ensures Finds(p, s, at) && TakenAt(s, at, Filter(p, s))
  {
    at := [];
    if s != [] {
      var rest := FilterKeepsOrder(p, s[1..]);
      at := if p(s[0]) then [0] + Shifted(rest) else Shifted(rest);
      hide Finds, TakenAt, Shifted;
      FindsStep(p, s, rest);
      TakenStep(s, rest, Filter(p, s[1..]));
    }
  }

  lemma {:induction false} FilterAppend<T>(p: T -> bool, s: seq<T>, t: seq<T>)
    ensures Filter(p, s + t) == Filter(p, s) + Filter(p, t)
  {
    if s == [] {
      assert s + t == t;
    } else {
      assert (s + t)[1..] == s[1..] + t;
      FilterAppend(p, s[1..], t);
    }
  }

  lemma {:induction false} FilterAll<T>(p: T -> bool, s: seq<T>)
    requires forall x | x in s :: p(x)
    ensures Filter(p, s) == s
  {
    if s != [] {
      FilterAll(p, s[1..]);
    }
  }

  lemma {:induction false} FilterNone<T>(p: T -> bool, s: seq<T>)
    requires forall x | x in s :: !p(x)
    ensures Filter(p, s) == []
  {
    if s != [] {
      FilterNone(p, s[1..]);
    }
  }

  lemma {:induction false} FilterAgree<T>(p: T -> bool, q: T -> bool, s: seq<T>)
    requires forall x | x in s :: p(x) == q(x)
    ensures Filter(p, s) == Filter(q, s)
  {
    if s != [] {
      FilterAgree(p, q, s[1..]);
    }
  }

  lemma {:induction false} FilterTwice<T>(p: T -> bool, q: T -> bool, both: T -> bool, s: seq<T>)
    requires forall x | x in s :: both(x) == (p(x) && q(x))
    ensures Filter(p, Filter(q, s)) == Filter(both, s)
  {
    if s != [] {
      FilterTwice(p, q, both, s[1..]);
      if q(s[0]) {
        FilterCons(p, s[0], Filter(q, s[1..]));
      }
    }
  }

  lemma {:induction false} InsertThenFilter<T(!new)>(le: (T, T) -> bool, p: T -> bool, x: T, s: seq<T>)
    requires TotalPreorder(le) && Sorted(le, s)
    ensures Filter(p, Insert(le, x, s)) == if p(x) then Insert(le, x, Filter(p, s)) else Filter(p, s)
  {
    if s == [] {
    } else if le(x, s[0]) {
      assert ([x] + s)[1..] == s;
      FilterMembers(p, s);
      if Filter(p, s) != [] {
        var h := Filter(p, s)[0];
        assert h in Filter(p, s);
        assert h in s && le(x, h);
      }
    } else {
      InsertThenFilter(le, p, x, s[1..]);
      FilterCons(p, s[0], Insert(le, x, s[1..]));
      FirstCons(p, s[0], Filter(p, s[1..]));
      if p(s[0]) && p(x) {
        assert ([s[0]] + Filter(p, s[1..]))[1..] == Filter(p, s[1..]);
      }
    }
  }

  /** A stable sort and a filter may be done in either order. */
  lemma {:induction false} SortThenFilter<T(!new)>(le: (T, T) -> bool, p: T -> bool, s: seq<T>)
    requires TotalPreorder(le)
    ensures Filter(p, StableSort(le, s)) == StableSort(le, Filter(p, s))
  {
    if s != [] {
      SortThenFilter(le, p, s[1..]);
      SortSorts(le, s[1..]);
      InsertThenFilter(le, p, s[0], StableSort(le, s[1..]));
      if p(s[0]) {
        var f := Filter(p, s[1..]);
        assert ([s[0]] + f)[1..] == f;
      }
    }
  }

  /** Searching for a `p` may skip everything outside a superset `q` of it. */
  lemma {:induction false} FirstOfFilter<T>(p: T -> bool, q: T -> bool, s: seq<T>)
    requires forall x | x in s && p(x) :: q(x)
    ensures First(p, Filter(q, s)) == First(p, s)
  {
    if s != [] {
      FirstOfFilter(p, q, s[1..]);
      if q(s[0]) {
        var f := Filter(q, s[1..]);
        assert ([s[0]] + f)[1..] == f;
      }
    }
  }

  /** What `First` finds: a member satisfying `p`, with none before it. */
  lemma {:induction false} FirstFinds<T>(p: T -> bool, s: seq<T>)
    ensures First(p, s).None? <==> forall x | x in s :: !p(x)
    ensures First(p, s).Some? ==>
      exists i | 0 <= i < |s| ::
        s[i] == First(p, s).value && p(s[i]) && forall j | 0 <= j < i :: !p(s[j])
  {
    if s != [] {
      FirstFinds(p, s[1..]);
      if p(s[0]) {
        assert s[0] == First(p, s).value;
      } else if First(p, s).Some? {
        var i :| 0 <= i < |s[1..]| && s[1..][i] == First(p, s).value && p(s[1..][i])
                 && forall j | 0 <= j < i :: !p(s[1..][j]);
        assert s[i + 1] == First(p, s).value && p(s[i + 1]);
        forall j | 0 <= j < i + 1 ensures !p(s[j]) {
          if j > 0 { assert s[j] == s[1..][j - 1]; }
        }
      }
    }
  }
}
