/**
  The array built-ins the commentary code uses: `filter`, `slice(0, n)`, and
  `[...xs].sort((a, b) => key(b) - key(a))[0]`: the first element of a copy
  of `xs` sorted by descending key. `Array.prototype.sort` is stable, so
  that element is the first one, in the order of `xs`, whose key is maximal.
  TopBy picks that first maximum directly (FirstMaxIndex); SortDesc is a
  stable descending sort, and TopByIsSortHead proves that TopBy is its head.
*/
module JsArray {
  import opened Wrappers

  /** `s[i]` has the largest key, and no earlier element has that key. */
  predicate IsFirstMax<T>(s: seq<T>, key: T -> int, i: int) {
    && 0 <= i < |s|
    && (forall j :: 0 <= j < |s| ==> key(s[j]) <= key(s[i]))
    && (forall j :: 0 <= j < i ==> key(s[j]) < key(s[i]))
  }

  /** Among the elements satisfying `p`, `s[i]` is the first one with the largest key. */
  predicate IsFirstMaxWhere<T>(s: seq<T>, p: T -> bool, key: T -> int, i: int) {
    && 0 <= i < |s| && p(s[i])
    && (forall j :: 0 <= j < |s| && p(s[j]) ==> key(s[j]) <= key(s[i]))
    && (forall j :: 0 <= j < i && p(s[j]) ==> key(s[j]) < key(s[i]))
  }

  function FirstMaxIndex<T>(s: seq<T>, key: T -> int): (i: nat)
    requires |s| > 0
    ensures IsFirstMax(s, key, i)
  {
    if |s| == 1 then 0
    else
      var k := FirstMaxIndex(s[1..], key);
      if key(s[0]) >= key(s[1 + k]) then 0 else 1 + k
  }

  /** `xs.filter(p)`. */
  function Filter<T>(s: seq<T>, p: T -> bool): (r: seq<T>)
    ensures |r| <= |s|
    ensures forall i :: 0 <= i < |r| ==> p(r[i]) && r[i] in s
    ensures forall i :: 0 <= i < |s| && p(s[i]) ==> s[i] in r
  {
    if s == [] then []
    else if p(s[0]) then [s[0]] + Filter(s[1..], p)
    else Filter(s[1..], p)
  }

  /** Filtering a single element keeps it exactly when it passes. */
  lemma FilterSingle<T>(x: T, p: T -> bool)
    ensures Filter([x], p) == if p(x) then [x] else []
  {
    assert [x][1..] == [];
  }

  /**
    Filtering distributes over concatenation. With FilterSingle this fixes
    `filter` completely: the passing elements, in order, each as often as it
    occurs.
  */
  lemma {:induction false} FilterAppend<T>(a: seq<T>, b: seq<T>, p: T -> bool)
    ensures Filter(a + b, p) == Filter(a, p) + Filter(b, p)
  {
    if a == [] {
      assert a + b == b;
    } else {
      assert (a + b)[0] == a[0];
      assert (a + b)[1..] == a[1..] + b;
      FilterAppend(a[1..], b, p);
      if p(a[0]) {
        assert [a[0]] + (Filter(a[1..], p) + Filter(b, p)) == ([a[0]] + Filter(a[1..], p)) + Filter(b, p);
      }
    }
  }

  /** Peels the first element off a slice. */
  lemma SliceCons<T>(s: seq<T>, i: nat, j: nat)
    requires i < j <= |s|
    ensures s[i..j] == [s[i]] + s[i + 1..j]
    ensures s[i..] == [s[i]] + s[i + 1..]
  {
  }

  /** `xs.slice(0, n)`: the first min(n, |s|) elements. */
  function Take<T>(s: seq<T>, n: nat): (r: seq<T>)
    ensures |r| == if |s| < n then |s| else n
    ensures forall i :: 0 <= i < |r| ==> r[i] == s[i]
  {
    if |s| < n then s else s[..n]
  }

  /** `f(s[0]) + f(s[1]) + ...`: what a loop pushing `f(x)` for each `x` of `s` builds. */
  function ConcatMap<T, U>(s: seq<T>, f: T -> seq<U>): seq<U> {
    if s == [] then [] else ConcatMap(s[..|s| - 1], f) + f(s[|s| - 1])
  }

  /** The loop pushes nothing at all exactly when no element gives anything. */
  lemma {:induction false} ConcatMapEmpty<T, U>(s: seq<T>, f: T -> seq<U>)
    ensures ConcatMap(s, f) == [] <==> forall j :: 0 <= j < |s| ==> f(s[j]) == []
  {
    if s != [] {
      var init := s[..|s| - 1];
      ConcatMapEmpty(init, f);
      assert forall j :: 0 <= j < |init| ==> init[j] == s[j];
    }
  }

  /** As ConcatMapEmpty, with "gives nothing" characterised by `q`. */
  lemma ConcatMapEmptyIff<T, U>(s: seq<T>, f: T -> seq<U>, q: T -> bool)
    requires forall j :: 0 <= j < |s| ==> (f(s[j]) == [] <==> q(s[j]))
    ensures ConcatMap(s, f) == [] <==> forall j :: 0 <= j < |s| ==> q(s[j])
  {
    ConcatMapEmpty(s, f);
  }

  /** Places `x` before the first element of `r` whose key is not larger. */
  function InsertDesc<T>(x: T, r: seq<T>, key: T -> int): (q: seq<T>)
    ensures multiset(q) == multiset(r) + multiset{x}
  {
    if r == [] || key(x) >= key(r[0]) then [x] + r
    else
      assert r == [r[0]] + r[1..];
      [r[0]] + InsertDesc(x, r[1..], key)
  }

  /** Stable sort by descending key: insert each element before its equals. */
  function SortDesc<T>(s: seq<T>, key: T -> int): (r: seq<T>)
    ensures multiset(r) == multiset(s)
  {
    if s == [] then []
    else
      assert s == [s[0]] + s[1..];
      InsertDesc(s[0], SortDesc(s[1..], key), key)
  }

  predicate SortedDesc<T>(s: seq<T>, key: T -> int) {
    forall i, j :: 0 <= i < j < |s| ==> key(s[i]) >= key(s[j])
  }

  /** Every element of the result is `x` or comes from `r`. */
  lemma {:induction false} InsertDescMembers<T>(x: T, r: seq<T>, key: T -> int)
    ensures forall k :: 0 <= k < |InsertDesc(x, r, key)| ==>
      InsertDesc(x, r, key)[k] == x || InsertDesc(x, r, key)[k] in r
  {
    if r != [] && key(x) < key(r[0]) {
      InsertDescMembers(x, r[1..], key);
      var q := InsertDesc(x, r[1..], key);
      assert InsertDesc(x, r, key) == [r[0]] + q;
      assert forall y :: y in r[1..] ==> y in r;
    }
  }

  lemma {:induction false} InsertDescSorted<T>(x: T, r: seq<T>, key: T -> int)
    requires SortedDesc(r, key)
    ensures SortedDesc(InsertDesc(x, r, key), key)
    ensures InsertDesc(x, r, key)[0] == x || (r != [] && InsertDesc(x, r, key)[0] == r[0])
  {
    if r != [] && key(x) < key(r[0]) {
      var q := InsertDesc(x, r[1..], key);
      InsertDescSorted(x, r[1..], key);
      InsertDescMembers(x, r[1..], key);
      assert InsertDesc(x, r, key) == [r[0]] + q;
      forall k | 0 <= k < |q| ensures key(r[0]) >= key(q[k]) {
        if q[k] != x {
          var m :| 0 <= m < |r[1..]| && r[1..][m] == q[k];
          assert q[k] == r[1 + m];
        }
      }
      SortedCons(r[0], q, key);
    }
  }

  /** A head no smaller than any element keeps a sorted list sorted. */
  lemma SortedCons<T>(h: T, q: seq<T>, key: T -> int)
    requires SortedDesc(q, key)
    requires forall k :: 0 <= k < |q| ==> key(h) >= key(q[k])
    ensures SortedDesc([h] + q, key)
  {
    var c := [h] + q;
    forall i, j | 0 <= i < j < |c| ensures key(c[i]) >= key(c[j]) {
      assert c[j] == q[j - 1];
      if i > 0 {
        assert c[i] == q[i - 1];
      }
    }
  }

  lemma {:induction false} SortDescSorted<T>(s: seq<T>, key: T -> int)
    ensures SortedDesc(SortDesc(s, key), key)
  {
    if s != [] {
      SortDescSorted(s[1..], key);
      InsertDescSorted(s[0], SortDesc(s[1..], key), key);
    }
  }

  /** The head of the stable descending sort is the first maximum of the input. */
  lemma {:induction false} SortDescHead<T>(s: seq<T>, key: T -> int)
    requires |s| > 0
    ensures |SortDesc(s, key)| == |s|
    ensures SortDesc(s, key)[0] == s[FirstMaxIndex(s, key)]
  {
    assert |multiset(SortDesc(s, key))| == |multiset(s)|;
    if |s| > 1 {
      var rest := SortDesc(s[1..], key);
      SortDescHead(s[1..], key);
      assert rest[0] == s[1..][FirstMaxIndex(s[1..], key)];
    }
  }

  /**
    `[...s].sort((a, b) => key(b) - key(a))[0]`, `undefined` for an empty `s`:
    the first element with the largest key (TopByIsSortHead).
  */
  function TopBy<T>(s: seq<T>, key: T -> int): (r: Option<T>)
    ensures r.None? <==> s == []
    ensures r.Some? ==> IsFirstMax(s, key, FirstMaxIndex(s, key)) && r.value == s[FirstMaxIndex(s, key)]
  {
    if s == [] then None else Some(s[FirstMaxIndex(s, key)])
  }

  /** TopBy is the head of the stable descending sort. */
  lemma TopByIsSortHead<T>(s: seq<T>, key: T -> int)
    requires s != []
    ensures |SortDesc(s, key)| == |s|
    ensures TopBy(s, key) == Some(SortDesc(s, key)[0])
  {
    SortDescHead(s, key);
  }

  lemma FirstMaxWhereSkip<T>(s: seq<T>, p: T -> bool, key: T -> int, i: nat)
    requires |s| > 0 && !p(s[0]) && IsFirstMaxWhere(s[1..], p, key, i)
    ensures IsFirstMaxWhere(s, p, key, i + 1)
  {
    forall j | 0 < j < |s| ensures s[j] == s[1..][j - 1] { }
  }

  lemma FirstMaxWhereHead<T>(s: seq<T>, p: T -> bool, key: T -> int)
    requires |s| > 0 && p(s[0])
    requires forall j :: 0 <= j < |s[1..]| && p(s[1..][j]) ==> key(s[1..][j]) <= key(s[0])
    ensures IsFirstMaxWhere(s, p, key, 0)
  {
    forall j | 0 < j < |s| ensures s[j] == s[1..][j - 1] { }
  }

  lemma FirstMaxWhereLater<T>(s: seq<T>, p: T -> bool, key: T -> int, i: nat)
    requires |s| > 0 && p(s[0]) && IsFirstMaxWhere(s[1..], p, key, i)
    requires key(s[0]) < key(s[1 + i])
    ensures IsFirstMaxWhere(s, p, key, i + 1)
  {
    forall j | 0 < j < |s| ensures s[j] == s[1..][j - 1] { }
  }

  /**
    The first maximum of `s.filter(p)` is the first element of `s` that
    satisfies `p` and has the largest key among those that do.
  */
  lemma {:induction false} FilterFirstMax<T>(s: seq<T>, p: T -> bool, key: T -> int) returns (i: nat)
    requires Filter(s, p) != []
    ensures IsFirstMaxWhere(s, p, key, i)
    ensures s[i] == Filter(s, p)[FirstMaxIndex(Filter(s, p), key)]
  {
    var f := Filter(s, p);
    var f' := Filter(s[1..], p);
    if !p(s[0]) {
      assert f == f';
      var i' := FilterFirstMax(s[1..], p, key);
      FirstMaxWhereSkip(s, p, key, i');
      i := i' + 1;
    } else if f' == [] {
      assert f == [s[0]];
      forall j | 0 <= j < |s[1..]| ensures !p(s[1..][j]) {
        assert s[1..][j] in s[1..];
      }
      FirstMaxWhereHead(s, p, key);
      i := 0;
    } else {
      assert f == [s[0]] + f' && f[1..] == f';
      var i' := FilterFirstMax(s[1..], p, key);
      if key(s[0]) >= key(s[1 + i']) {
        FirstMaxWhereHead(s, p, key);
        i := 0;
      } else {
        FirstMaxWhereLater(s, p, key, i');
        i := i' + 1;
      }
    }
  }

  /** `[...s].filter(p).sort(...)[0]` exists exactly when some element satisfies `p`. */
  lemma TopByFilter<T>(s: seq<T>, p: T -> bool, key: T -> int)
    ensures TopBy(Filter(s, p), key).Some? <==> exists i :: 0 <= i < |s| && p(s[i])
    ensures TopBy(Filter(s, p), key).Some? ==>
      exists i :: (IsFirstMaxWhere(s, p, key, i) && TopBy(Filter(s, p), key).value == s[i])
  {
    var f := Filter(s, p);
    if f != [] {
      var i := FilterFirstMax(s, p, key);
    } else {
      forall i | 0 <= i < |s| ensures !p(s[i]) {
        assert s[i] in s;
      }
    }
  }
}
