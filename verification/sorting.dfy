/** Stable sorting by a numeric key: Python's sorted() and the ORDER BY of
    the backend's queries. */
module Sorting {

  predicate SortedBy<T>(s: seq<T>, key: T -> real) {
    forall i, j :: 0 <= i < j < |s| ==> key(s[i]) <= key(s[j])
  }

  /** The identity key, for sorting numbers by value. */
  function Id(x: real): real { x }

  function IntKey(x: int): real { x as real }

  ghost predicate Injective<T(!new)>(key: T -> real) {
    forall x, y :: key(x) == key(y) ==> x == y
  }

  /** Inserts x before the first element whose key is not below x's. */
  function InsertBy<T>(x: T, s: seq<T>, key: T -> real): (r: seq<T>)
    requires SortedBy(s, key)
    ensures |r| == |s| + 1
    ensures multiset(r) == multiset(s) + multiset{x}
    ensures r[0] == x || (s != [] && r[0] == s[0])
    ensures SortedBy(r, key)
  {
    if s == [] then [x]
    else if key(x) <= key(s[0]) then
      ConsSorted(x, s, key);
      [x] + s
    else
      var t := InsertBy(x, s[1..], key);
      ConsSorted(s[0], t, key);
      ConsMultiset(s[0], s[1..], t, x);
      assert s == [s[0]] + s[1..];
      [s[0]] + t
  }

  /** Putting the same element in front keeps one more x on the left. */
  lemma ConsMultiset<T>(h: T, rest: seq<T>, t: seq<T>, x: T)
    requires multiset(t) == multiset(rest) + multiset{x}
    ensures multiset([h] + t) == multiset([h] + rest) + multiset{x}
  {
  }

  /** An element no greater than the head of a sorted sequence can be put
      in front of it. */
  lemma ConsSorted<T>(h: T, t: seq<T>, key: T -> real)
    requires SortedBy(t, key)
    requires t != [] ==> key(h) <= key(t[0])
    ensures SortedBy([h] + t, key)
  {
    var r := [h] + t;
    forall i, j | 0 <= i < j < |r| ensures key(r[i]) <= key(r[j]) {
      if i == 0 && j > 1 {
        assert key(t[0]) <= key(t[j - 1]);
      }
    }
  }

  /** sorted(s, key=key): an ordered permutation of s. */
  function SortBy<T>(s: seq<T>, key: T -> real): (r: seq<T>)
    ensures |r| == |s|
    ensures multiset(r) == multiset(s)
    ensures SortedBy(r, key)
  {
    if s == [] then []
    else
      assert s == [s[0]] + s[1..];
      InsertBy(s[0], SortBy(s[1..], key), key)
  }

  /** Under an injective key there is only one ordered arrangement of a
      multiset: sorting does not depend on the order of its input. */
  lemma {:induction false} SortedPermutationUnique<T(!new)>(a: seq<T>, b: seq<T>, key: T -> real)
    requires Injective(key)
    requires SortedBy(a, key) && SortedBy(b, key)
    requires multiset(a) == multiset(b)
    ensures a == b
  {
    assert |a| == |multiset(a)| == |multiset(b)| == |b|;
    if a != [] {
      HeadIsLeast(a, b, key);
      HeadIsLeast(b, a, key);
      assert a[0] == b[0];
      SameTails(a, b);
      SortedTail(a, key);
      SortedTail(b, key);
      SortedPermutationUnique(a[1..], b[1..], key);
      assert a == [a[0]] + a[1..];
      assert b == [b[0]] + b[1..];
    }
  }

  /** Equal multisets with equal heads have equal tails. */
  lemma SameTails<T>(a: seq<T>, b: seq<T>)
    requires a != [] && b != [] && a[0] == b[0] && multiset(a) == multiset(b)
    ensures multiset(a[1..]) == multiset(b[1..])
  {
    assert a == [a[0]] + a[1..];
    assert b == [b[0]] + b[1..];
    assert multiset(a[1..]) == multiset(a) - multiset{a[0]};
    assert multiset(b[1..]) == multiset(b) - multiset{b[0]};
  }

  lemma SortedTail<T>(a: seq<T>, key: T -> real)
    requires a != [] && SortedBy(a, key)
    ensures SortedBy(a[1..], key)
  {
  }

  /** The head of a sorted sequence has the least key of its multiset. */
  lemma HeadIsLeast<T>(a: seq<T>, b: seq<T>, key: T -> real)
    requires SortedBy(b, key)
    requires a != [] && multiset(a) == multiset(b)
    ensures b != [] && key(b[0]) <= key(a[0])
  {
    assert a[0] in multiset(b);
    var i :| 0 <= i < |b| && b[i] == a[0];
  }

  lemma SortByOrderIndependent<T(!new)>(a: seq<T>, b: seq<T>, key: T -> real)
    requires Injective(key)
    requires multiset(a) == multiset(b)
    ensures SortBy(a, key) == SortBy(b, key)
  {
    SortedPermutationUnique(SortBy(a, key), SortBy(b, key), key);
  }

  /** In a sorted sequence every element of the first k is at most every
      element after them: the first k are the k smallest. */
  lemma PrefixIsSmallest<T>(s: seq<T>, key: T -> real, k: nat)
    requires SortedBy(s, key) && k <= |s|
    ensures forall i, j :: 0 <= i < k <= j < |s| ==> key(s[i]) <= key(s[j])
  {
  }

  /** In a sorted sequence the first k are the k least: every element
      left after them has a key at least as large as each of them. */
  lemma SortedPrefixLeast<T>(s: seq<T>, key: T -> real, k: nat)
    requires SortedBy(s, key) && k <= |s|
    ensures multiset(s[..k]) <= multiset(s)
    ensures forall i, y :: 0 <= i < k && y in multiset(s) - multiset(s[..k]) ==> key(s[i]) <= key(y)
  {
    assert s == s[..k] + s[k..];
    assert multiset(s) - multiset(s[..k]) == multiset(s[k..]);
    forall i, y | 0 <= i < k && y in multiset(s[k..])
      ensures key(s[i]) <= key(y)
    {
      var j :| 0 <= j < |s| - k && s[k..][j] == y;
      assert key(s[i]) <= key(s[k + j]);
    }
  }

  /** The page selected by OFFSET and LIMIT (or a Python slice): the
      entries from `offset` on, as many as there are up to `limit`. */
  function Page<T>(s: seq<T>, offset: nat, limit: nat): (r: seq<T>)
    ensures |r| == if offset >= |s| then 0 else if limit <= |s| - offset then limit else |s| - offset
    ensures forall k :: 0 <= k < |r| ==> offset + k < |s| && r[k] == s[offset + k]
  {
    var lo := if offset <= |s| then offset else |s|;
    var hi := if offset + limit <= |s| then offset + limit else |s|;
    s[lo..hi]
  }

  /** A page of a sorted sequence is sorted. */
  lemma PageSorted<T>(s: seq<T>, key: T -> real, offset: nat, limit: nat)
    requires SortedBy(s, key)
    ensures SortedBy(Page(s, offset, limit), key)
  {
    var page := Page(s, offset, limit);
    forall i, j | 0 <= i < j < |page| ensures key(page[i]) <= key(page[j]) {
      assert page[i] == s[offset + i] && page[j] == s[offset + j];
    }
  }

  /** `ORDER BY key LIMIT n`: the first n entries of s in key order, or
      all of them when there are fewer. */
  function FirstBy<T>(s: seq<T>, key: T -> real, n: nat): (r: seq<T>)
    ensures |r| == if |s| <= n then |s| else n
    ensures multiset(r) <= multiset(s)
    ensures forall k, x :: 0 <= k < |r| && x in multiset(s) - multiset(r) ==> key(r[k]) <= key(x)
    ensures SortedBy(r, key)
  {
    var sorted := SortBy(s, key);
    var page := Page(sorted, 0, n);
    assert page == sorted[..|page|];
    SortedPrefixLeast(sorted, key, |page|);
    page
  }

  /** Two adjacent pages together are the page spanning both: paging
      through a list neither skips nor repeats an entry. */
  lemma PagesAreConsecutive<T>(s: seq<T>, offset: nat, a: nat, b: nat)
    ensures Page(s, offset, a) + Page(s, offset + a, b) == Page(s, offset, a + b)
  {
    var p, q, all := Page(s, offset, a), Page(s, offset + a, b), Page(s, offset, a + b);
    assert |p| + |q| == |all|;
    forall k | 0 <= k < |all| ensures (p + q)[k] == all[k] {
      if k >= |p| {
        assert q[k - |p|] == s[offset + a + (k - |p|)];
      }
    }
  }
}
