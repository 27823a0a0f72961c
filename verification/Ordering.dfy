/** Byte-wise string order. A Go string is a `seq<char>`, one char per byte. */
module Ordering {
  import opened Sorting

  /** `a < b`, as `strings.Compare` and `cmp.Compare` order strings. */
  predicate Less(a: string, b: string)
    decreases |a|
  {
    if b == "" then false
    else if a == "" then true
    else if a[0] != b[0] then a[0] < b[0]
    else Less(a[1..], b[1..])
  }

  predicate Leq(a: string, b: string) {
    a == b || Less(a, b)
  }

  /** `a` and `b` agree up to `k`, where `a` ends or has the smaller byte. */
  predicate SmallerFrom(a: string, b: string, k: int) {
    0 <= k <= |a| && k < |b| && a[..k] == b[..k] && (k == |a| || a[k] < b[k])
  }

  lemma {:induction false} LessExactlyWhen(a: string, b: string)
    ensures Less(a, b) <==> exists k :: SmallerFrom(a, b, k)
    decreases |a|
  {
    if b == "" {
    } else if a == "" || a[0] < b[0] {
      assert SmallerFrom(a, b, 0);
    } else if a[0] == b[0] {
      LessExactlyWhen(a[1..], b[1..]);
      if k :| SmallerFrom(a[1..], b[1..], k) {
        assert a[..k + 1] == [a[0]] + a[1..][..k] && b[..k + 1] == [b[0]] + b[1..][..k];
        assert SmallerFrom(a, b, k + 1);
      }
      if k :| SmallerFrom(a, b, k) {
        assert k > 0;
        assert a[1..][..k - 1] == a[..k][1..] && b[1..][..k - 1] == b[..k][1..];
        assert SmallerFrom(a[1..], b[1..], k - 1);
      }
    } else {
      forall k | 0 < k <= |a| && k < |b| ensures a[..k] != b[..k] {
        assert a[..k][0] == a[0] && b[..k][0] == b[0];
      }
    }
  }

  lemma {:induction false} LessTotal(a: string, b: string)
    ensures a == b || Less(a, b) || Less(b, a)
    decreases |a|
  {
    if a != "" && b != "" && a[0] == b[0] {
      LessTotal(a[1..], b[1..]);
      if a[1..] == b[1..] {
        assert a == [a[0]] + a[1..] && b == [b[0]] + b[1..];
      }
    }
  }

  lemma {:induction false} LessAsymmetric(a: string, b: string)
    requires Less(a, b)
    ensures a != b && !Less(b, a)
    decreases |a|
  {
    if a != "" && a[0] == b[0] {
      LessAsymmetric(a[1..], b[1..]);
    }
  }

  lemma {:induction false} LessTransitive(a: string, b: string, c: string)
    requires Less(a, b) && Less(b, c)
    ensures Less(a, c)
    decreases |a|
  {
    if a != "" && a[0] == b[0] && b[0] == c[0] {
      LessTransitive(a[1..], b[1..], c[1..]);
    }
  }

  lemma LeqTransitive(a: string, b: string, c: string)
    requires Leq(a, b) && Leq(b, c)
    ensures Leq(a, c)
  {
    if a != b && b != c {
      LessTransitive(a, b, c);
    }
  }

  function StringOrder(): (string, string) -> bool {
    (a: string, b: string) => Leq(a, b)
  }

  lemma StringOrderIsTotal()
    ensures TotalPreorder(StringOrder())
    ensures forall a, b | Leq(a, b) && Leq(b, a) :: a == b
  {
    forall a: string, b: string
      ensures Leq(a, b) || Leq(b, a)
      ensures Leq(a, b) && Leq(b, a) ==> a == b
    {
      LessTotal(a, b);
      if Less(a, b) { LessAsymmetric(a, b); }
    }
    forall a: string, b: string, c: string | Leq(a, b) && Leq(b, c) ensures Leq(a, c) {
      LeqTransitive(a, b, c);
    }
  }

  ghost predicate Distinct<T>(s: seq<T>) {
    forall i, j | 0 <= i < j < |s| :: s[i] != s[j]
  }

  function Elements<T>(s: seq<T>): set<T> {
    set x | x in s
  }

  /** `ks` lists exactly the elements of `s`, once each, in increasing order. */
  ghost predicate Lists(s: set<string>, ks: seq<string>) {
    Elements(ks) == s && Distinct(ks) && Sorted(StringOrder(), ks)
  }

  /**
   * `maps.Keys` or a `range` over a Go map yields the keys in an unspecified
   * order; sorting them afterwards removes the choice.
   */
  method SortedKeys(s: set<string>) returns (ks: seq<string>)
    ensures Lists(s, ks)
  {
    var pending, found := s, [];
    while pending != {}
      invariant pending !! Elements(found) && pending + Elements(found) == s
      invariant Distinct(found)
      decreases pending
    {
      var k :| k in pending;
      pending := pending - {k};
      assert Elements(found + [k]) == Elements(found) + {k};
      found := found + [k];
    }
    ks := StableSort(StringOrder(), found);
    SortLists(found);
  }

  lemma DistinctPermutes<T>(s: seq<T>, t: seq<T>)
    requires Distinct(s) && multiset(s) == multiset(t)
    ensures Distinct(t)
  {
    MultiplicityOfDistinct(s);
    if i, j :| 0 <= i < j < |t| && t[i] == t[j] {
      var rest := t[..j] + t[j + 1..];
      assert t == t[..j] + [t[j]] + t[j + 1..];
      assert multiset(t) == multiset(rest) + multiset{t[j]};
      assert rest[i] == t[j] && t[j] in multiset(rest);
      assert multiset(s)[t[j]] >= 2;
    }
  }

  lemma {:induction false} MultiplicityOfDistinct<T>(s: seq<T>)
    requires Distinct(s)
    ensures forall x | x in s :: multiset(s)[x] == 1
  {
    if s != [] {
      MultiplicityOfDistinct(s[1..]);
      assert s == [s[0]] + s[1..];
      assert s[0] !in s[1..];
    }
  }

  /** A set has exactly one increasing listing, so the map's iteration order cannot show. */
  lemma ListingUnique(s: set<string>, ks: seq<string>, ls: seq<string>)
    requires Lists(s, ks) && Lists(s, ls)
    ensures ks == ls
  {
    StringOrderIsTotal();
    MultiplicityOfDistinct(ks);
    MultiplicityOfDistinct(ls);
    forall x ensures multiset(ks)[x] == multiset(ls)[x] {
      assert x in ks <==> x in Elements(ks);
      assert x in ls <==> x in Elements(ls);
    }
    assert multiset(ks) == multiset(ls);
    SortedUnique(StringOrder(), ks, ls);
  }

  /** Sorting duplicate-free keys lists them. */
  lemma SortLists(found: seq<string>)
    requires Distinct(found)
    ensures Lists(Elements(found), StableSort(StringOrder(), found))
  {
    StringOrderIsTotal();
    SortSorts(StringOrder(), found);
    SortPermutes(StringOrder(), found);
    SortKeepsMembers(StringOrder(), found);
    DistinctPermutes(found, StableSort(StringOrder(), found));
  }

  lemma EnumerationExists(s: set<string>)
    ensures exists ks: seq<string> :: Distinct(ks) && Elements(ks) == s
    decreases |s|
  {
    if s == {} {
      assert Distinct<string>([]) && Elements<string>([]) == s;
    } else {
      var k :| k in s;
      EnumerationExists(s - {k});
      var rest: seq<string> :| Distinct(rest) && Elements(rest) == s - {k};
      assert k !in Elements(rest);
      assert Elements(rest + [k]) == Elements(rest) + {k};
      assert Distinct(rest + [k]);
    }
  }

  ghost function Listing(s: set<string>): (ks: seq<string>)
    ensures Lists(s, ks)
  {
    EnumerationExists(s);
    var found: seq<string> :| Distinct(found) && Elements(found) == s;
    SortLists(found);
    StableSort(StringOrder(), found)
  }
}
