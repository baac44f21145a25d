/** Row searches and filters: the `.filter(...).first()` and
    `.filter(...).all()` of the backend's queries, and the JavaScript
    `find`/`filter` of the client stores. */
module Seqs {
  import opened Numeric

  /** Index of the first element satisfying p. */
  function FirstIndex<T>(s: seq<T>, p: T -> bool): (r: Option<nat>)
    ensures r.Some? ==> r.value < |s| && p(s[r.value])
    ensures r.Some? ==> forall j :: 0 <= j < r.value ==> !p(s[j])
    ensures r.None? <==> forall j :: 0 <= j < |s| ==> !p(s[j])
  {
    if s == [] then None
    else if p(s[0]) then Some(0)
    else
      var r := FirstIndex(s[1..], p);
      if r.None? then None else Some(r.value + 1)
  }

  /** The elements satisfying p, in their original order. */
  function Filter<T>(s: seq<T>, p: T -> bool): (r: seq<T>)
    ensures |r| <= |s|
    ensures forall k :: 0 <= k < |r| ==> r[k] in s && p(r[k])
    ensures forall k :: 0 <= k < |s| && p(s[k]) ==> s[k] in r
  {
    if s == [] then []
    else
      assert s == [s[0]] + s[1..];
      (if p(s[0]) then [s[0]] else []) + Filter(s[1..], p)
  }

  /** Filtering keeps exactly the elements satisfying p: their number of
      occurrences is unchanged and the others are gone. */
  lemma {:induction false} FilterMultiset<T>(s: seq<T>, p: T -> bool, x: T)
    ensures multiset(Filter(s, p))[x] == if p(x) then multiset(s)[x] else 0
  {
    if s != [] {
      assert s == [s[0]] + s[1..];
      FilterMultiset(s[1..], p, x);
    }
  }

  /** Filtering by a predicate that holds everywhere changes nothing. */
  lemma {:induction false} FilterAll<T>(s: seq<T>, p: T -> bool)
    requires forall k :: 0 <= k < |s| ==> p(s[k])
    ensures Filter(s, p) == s
  {
    if s != [] {
      assert s == [s[0]] + s[1..];
      FilterAll(s[1..], p);
    }
  }

  /** Filtering a sequence extended by one element extends the result by
      that element when it satisfies p. */
  lemma {:induction false} FilterSnoc<T>(s: seq<T>, x: T, p: T -> bool)
    ensures Filter(s + [x], p) == Filter(s, p) + (if p(x) then [x] else [])
  {
    if s == [] {
      assert [x][1..] == [];
    } else {
      assert (s + [x])[1..] == s[1..] + [x];
      FilterSnoc(s[1..], x, p);
    }
  }

  /** Filtering distributes over concatenation. */
  lemma {:induction false} FilterAppend<T>(a: seq<T>, b: seq<T>, p: T -> bool)
    ensures Filter(a + b, p) == Filter(a, p) + Filter(b, p)
  {
    if a == [] {
      assert a + b == b;
    } else {
      assert (a + b)[1..] == a[1..] + b;
      FilterAppend(a[1..], b, p);
    }
  }

  /** Removing one element removes it from the filtered sequence too, and
      nothing else. */
  lemma FilterRemove<T>(front: seq<T>, x: T, back: seq<T>, p: T -> bool)
    ensures !p(x) ==> Filter(front + back, p) == Filter(front + [x] + back, p)
    ensures p(x) ==> |Filter(front + back, p)| + 1 == |Filter(front + [x] + back, p)|
  {
    var a, m, b := Filter(front, p), Filter([x], p), Filter(back, p);
    assert Filter(front + back, p) == a + b by {
      FilterAppend(front, back, p);
    }
    assert Filter(front + [x] + back, p) == a + (m + b) by {
      assert front + [x] + back == front + ([x] + back);
      FilterAppend(front, [x] + back, p);
      FilterAppend([x], back, p);
    }
    FilterSingle(x, p);
    if !p(x) {
      assert m + b == b;
    }
  }

  lemma FilterSingle<T>(x: T, p: T -> bool)
    ensures Filter([x], p) == if p(x) then [x] else []
  {
    assert [x][1..] == [];
  }

  /** Filtering by a predicate that holds nowhere leaves nothing. */
  lemma {:induction false} NoneKept<T>(s: seq<T>, p: T -> bool)
    requires forall k :: 0 <= k < |s| ==> !p(s[k])
    ensures Filter(s, p) == []
  {
    if s != [] {
      NoneKept(s[1..], p);
    }
  }
}
