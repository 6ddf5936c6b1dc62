/** Stands in for Go's library sort: some rearrangement in order, nothing more. */
module Sorting {

  /** A strict order, possibly with ties. */
  ghost predicate StrictOrder<T(!new)>(less: (T, T) -> bool)
  {
    && (forall a :: !less(a, a))
    && (forall a, b, c :: less(a, b) && less(b, c) ==> less(a, c))
  }

  ghost predicate SortedBy<T>(less: (T, T) -> bool, s: seq<T>)
  {
    forall i, j | 0 <= i < j < |s| :: !less(s[j], s[i])
  }

  lemma InsertSorted<T(!new)>(less: (T, T) -> bool, s: seq<T>, k: nat, x: T, r: seq<T>)
    requires StrictOrder(less) && SortedBy(less, s) && k <= |s|
    requires forall j | 0 <= j < k :: !less(x, s[j])
    requires k < |s| ==> less(x, s[k])
    requires |r| == |s| + 1 && r[k] == x && r[..k] == s[..k] && r[k + 1..] == s[k..]
    ensures SortedBy(less, r)
  {
    forall j | k <= j < |s| ensures !less(s[j], x) {
      assert j == k || !less(s[j], s[k]);
    }
    forall i | 0 <= i < k ensures r[i] == s[i] {
      assert r[i] == r[..k][i];
    }
    forall i | k < i < |r| ensures r[i] == s[i - 1] {
      assert r[i] == r[k + 1..][i - k - 1];
    }
  }

  lemma InsertCounts<T>(r: seq<T>, k: nat, x: T)
    requires k <= |r|
    ensures multiset(r[..k] + [x] + r[k..]) == multiset(r) + multiset{x}
  {
    assert r == r[..k] + r[k..];
    assert multiset(r) == multiset(r[..k]) + multiset(r[k..]);
  }

  lemma OneMore<T>(s: seq<T>, i: nat)
    requires i < |s|
    ensures multiset(s[..i + 1]) == multiset(s[..i]) + multiset{s[i]}
  {
    assert s[..i + 1] == s[..i] + [s[i]];
  }

  lemma Associative<T>(a: seq<T>, b: seq<T>, c: seq<T>)
    ensures (a + b) + c == a + (b + c)
  {
  }

  lemma NothingSorted<T>(less: (T, T) -> bool)
    ensures SortedBy(less, [])
  {
  }

  method Sort<T(!new)>(s: seq<T>, less: (T, T) -> bool) returns (r: seq<T>)
    requires StrictOrder(less)
    ensures multiset(r) == multiset(s)
    ensures SortedBy(less, r)
  {
    hide *;
    r := [];
    NothingSorted(less);
    for i := 0 to |s|
      invariant multiset(r) == multiset(s[..i]) && SortedBy(less, r)
    {
      var k := 0;
      while k < |r| && !less(s[i], r[k])
        invariant k <= |r|
        invariant forall j | 0 <= j < k :: !less(s[i], r[j])
      {
        k := k + 1;
      }
      var longer := r[..k] + [s[i]] + r[k..];
      assert longer[..k] == r[..k] && longer[k + 1..] == r[k..];
      InsertSorted(less, r, k, s[i], longer);
      InsertCounts(r, k, s[i]);
      OneMore(s, i);
      r := longer;
    }
    assert s[..|s|] == s;
  }

  // ---- strings, byte by byte -----------------------------------------------------

  predicate StringLess(a: string, b: string)
  {
    b != [] && (a == [] || a[0] < b[0] || (a[0] == b[0] && StringLess(a[1..], b[1..])))
  }

  lemma {:induction false} StringLessTransitive(a: string, b: string, c: string)
    requires StringLess(a, b) && StringLess(b, c)
    ensures StringLess(a, c)
  {
    if a != [] && a[0] == b[0] == c[0] {
      StringLessTransitive(a[1..], b[1..], c[1..]);
    }
  }

  /** Of two different strings one is less, and never both. */
  lemma {:induction false} StringLessTotal(a: string, b: string)
    ensures StringLess(a, b) || StringLess(b, a) || a == b
    ensures !(StringLess(a, b) && StringLess(b, a))
    ensures !StringLess(a, a)
  {
    if a != [] && b != [] {
      StringLessTotal(a[1..], b[1..]);
      assert a == [a[0]] + a[1..] && b == [b[0]] + b[1..];
    }
    if a != [] { StringLessTotal(a[1..], a[1..]); }
  }

  /** a and b agree up to position i, where a has the smaller character. */
  predicate SmallerAt(a: string, b: string, i: int)
  {
    0 <= i < |a| && i < |b| && a[..i] == b[..i] && a[i] < b[i]
  }

  lemma SmallerAtTail(a: string, b: string, i: int)
    requires a != [] && b != [] && a[0] == b[0] && i > 0
    ensures SmallerAt(a, b, i) <==> SmallerAt(a[1..], b[1..], i - 1)
  {
    if 0 < i < |a| && i < |b| {
      assert a[..i] == [a[0]] + a[1..][..i - 1] && b[..i] == [b[0]] + b[1..][..i - 1];
      assert a[1..][..i - 1] == a[..i][1..] && b[1..][..i - 1] == b[..i][1..];
    }
  }

  /**
   The order of strings is the dictionary order: a proper prefix comes first, otherwise the
   first character in which the two differ decides.
   */
  lemma {:induction false} StringLessMeans(a: string, b: string)
    ensures StringLess(a, b) <==> a < b || exists i :: SmallerAt(a, b, i)
    decreases |a|
  {
    if a == [] || b == [] {
      assert forall i :: !SmallerAt(a, b, i);
    } else if a[0] != b[0] {
      assert SmallerAt(a, b, 0) <==> a[0] < b[0];
      forall i | i > 0 ensures !SmallerAt(a, b, i) {
        if i < |a| && i < |b| { assert a[..i][0] == a[0] && b[..i][0] == b[0]; }
      }
    } else {
      StringLessMeans(a[1..], b[1..]);
      assert a == [a[0]] + a[1..] && b == [b[0]] + b[1..];
      assert a < b <==> a[1..] < b[1..];
      if i :| SmallerAt(a[1..], b[1..], i) {
        SmallerAtTail(a, b, i + 1);
        assert SmallerAt(a, b, i + 1);
      }
      if i :| SmallerAt(a, b, i) {
        SmallerAtTail(a, b, i);
        assert SmallerAt(a[1..], b[1..], i - 1);
      }
    }
  }

  lemma StringOrder()
    ensures StrictOrder(StringLess)
  {
    forall a: string ensures !StringLess(a, a) {
      StringLessTotal(a, a);
    }
    forall a: string, b: string, c: string | StringLess(a, b) && StringLess(b, c) ensures StringLess(a, c) {
      StringLessTransitive(a, b, c);
    }
  }

  ghost predicate StrictlySorted(keys: seq<string>)
  {
    forall i, j | 0 <= i < j < |keys| :: StringLess(keys[i], keys[j])
  }

  /** Collects the keys of a map, in any order, and sorts them. */
  method SortedKeys(keys: set<string>) returns (r: seq<string>)
    ensures StrictlySorted(r)
    ensures forall k :: k in r <==> k in keys
  {
    r := [];
    var rest := keys;
    while rest != {}
      invariant rest <= keys
      invariant forall k :: k in r <==> k in keys - rest
      invariant forall i, j | 0 <= i < j < |r| :: r[i] != r[j]
      decreases rest
    {
      var k :| k in rest;
      assert k !in r;
      r := r + [k];
      rest := rest - {k};
    }
    StringOrder();
    var s := Sort(r, StringLess);
    SortedDistinct(r, s);
    r := s;
  }

  /** Sorting distinct keys gives a strictly sorted sequence of the same keys. */
  lemma SortedDistinct(r: seq<string>, s: seq<string>)
    requires multiset(s) == multiset(r) && SortedBy(StringLess, s)
    requires forall i, j | 0 <= i < j < |r| :: r[i] != r[j]
    ensures StrictlySorted(s)
    ensures forall k :: k in s <==> k in r
  {
    forall k ensures k in s <==> k in r {
      assert k in multiset(s) <==> k in multiset(r);
    }
    forall i, j | 0 <= i < j < |s| ensures StringLess(s[i], s[j]) {
      StringLessTotal(s[i], s[j]);
      if s[i] == s[j] {
        TwoOfOne(s, i, j);
        OneOfEach(r, s[i]);
      }
    }
  }

  lemma TwoOfOne<T>(s: seq<T>, i: nat, j: nat)
    requires i < j < |s| && s[i] == s[j]
    ensures multiset(s)[s[i]] >= 2
  {
    assert s == s[..j] + [s[j]] + s[j + 1..];
    assert s[i] in s[..j];
  }

  lemma {:induction false} OneOfEach<T>(s: seq<T>, x: T)
    requires forall i, j | 0 <= i < j < |s| :: s[i] != s[j]
    ensures multiset(s)[x] <= 1
  {
    if s != [] {
      var k := |s| - 1;
      assert s == s[..k] + [s[k]];
      OneOfEach(s[..k], x);
      if s[k] == x { assert x !in s[..k]; }
    }
  }

  // ---- rearrangements ---------------------------------------------------------------

  ghost function Without<T>(s: seq<T>, j: nat): (r: seq<T>)
    requires j < |s|
  {
    s[..j] + s[j + 1..]
  }

  lemma WithoutCounts<T>(s: seq<T>, j: nat)
    requires j < |s|
    ensures multiset(Without(s, j)) == multiset(s) - multiset{s[j]}
  {
    assert s == s[..j] + [s[j]] + s[j + 1..];
  }

  /** Sequences without repetition that have the same elements are rearrangements. */
  lemma SameElements<T(!new)>(a: seq<T>, b: seq<T>)
    requires forall i, j | 0 <= i < j < |a| :: a[i] != a[j]
    requires forall i, j | 0 <= i < j < |b| :: b[i] != b[j]
    requires forall x :: x in a <==> x in b
    ensures multiset(a) == multiset(b)
  {
    forall x ensures multiset(a)[x] == multiset(b)[x] {
      OneOfEach(a, x);
      OneOfEach(b, x);
      assert x in multiset(a) <==> x in a;
      assert x in multiset(b) <==> x in b;
    }
  }
}
