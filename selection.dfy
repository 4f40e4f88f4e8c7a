/** Row selection and ordering on whole frames: equality filters (boolean row
    masks), descending sorts (sort_values(ascending=False)) and nlargest. */
module Selection {
  import opened Wrappers

  // ---------------------------------------------------------------------------
  // Filters
  // ---------------------------------------------------------------------------

  /** The state selector's choice that applies no state filter. */
  const AllStates: string := "All States"

  /** frame[mask]: the rows satisfying p, in their original order. */
  function Filter<T>(s: seq<T>, p: T -> bool): (r: seq<T>)
    ensures |r| <= |s|
    ensures forall i :: 0 <= i < |r| ==> r[i] in s && p(r[i])
    ensures forall i :: 0 <= i < |s| && p(s[i]) ==> s[i] in r
  {
    if s == [] then [] else (if p(s[0]) then [s[0]] else []) + Filter(s[1..], p)
  }

  /** A row is in the result exactly when it is in the input and passes the mask. */
  lemma FilterMembers<T>(s: seq<T>, p: T -> bool)
    ensures forall x :: x in Filter(s, p) <==> x in s && p(x)
  {
  }

  /** Filtering a concatenation filters each part and keeps the parts in order;
      with the one-row case this fixes the order of every filter result. */
  lemma {:induction false} FilterAppend<T>(a: seq<T>, b: seq<T>, p: T -> bool)
    ensures Filter(a + b, p) == Filter(a, p) + Filter(b, p)
  {
    if a != [] {
      assert (a + b)[0] == a[0];
      assert (a + b)[1..] == a[1..] + b;
      FilterAppend(a[1..], b, p);
    } else {
      assert a + b == b;
    }
  }

  /** A filter that every row passes returns its input unchanged. */
  lemma {:induction false} FilterKeepsAll<T>(s: seq<T>, p: T -> bool)
    requires forall x :: x in s ==> p(x)
    ensures Filter(s, p) == s
  {
    if s != [] {
      FilterKeepsAll(s[1..], p);
      assert s == [s[0]] + s[1..];
    }
  }

  /** Two masks that agree on every row select the same rows. */
  lemma {:induction false} FilterCongruent<T>(s: seq<T>, p: T -> bool, q: T -> bool)
    requires forall x :: x in s ==> p(x) == q(x)
    ensures Filter(s, p) == Filter(s, q)
  {
    if s != [] {
      FilterCongruent(s[1..], p, q);
    }
  }

  /** Filtering twice is filtering once by both conditions. */
  lemma {:induction false} FilterTwice<T>(s: seq<T>, p: T -> bool, q: T -> bool, pq: T -> bool)
    requires forall x :: pq(x) == (p(x) && q(x))
    ensures Filter(Filter(s, p), q) == Filter(s, pq)
  {
    if s != [] {
      FilterTwice(s[1..], p, q, pq);
      var head := if p(s[0]) then [s[0]] else [];
      FilterAppend(head, Filter(s[1..], p), q);
    }
  }

  // ---------------------------------------------------------------------------
  // Descending order on a metric that may be undefined
  // ---------------------------------------------------------------------------

  /** a ranks at or above b: defined values by size, an undefined value below every defined one. */
  predicate Outranks(a: Option<real>, b: Option<real>)
  {
    match b
    case None => true
    case Some(y) => a.Some? && a.value >= y
  }

  lemma OutranksTotal(a: Option<real>, b: Option<real>)
    ensures Outranks(a, b) || Outranks(b, a)
  {
  }

  /** Non-increasing by key. */
  predicate SortedDesc<T>(s: seq<T>, key: T -> Option<real>)
  {
    forall i, j :: 0 <= i < j < |s| ==> Outranks(key(s[i]), key(s[j]))
  }

  function InsertDesc<T>(x: T, s: seq<T>, key: T -> Option<real>): (r: seq<T>)
    requires SortedDesc(s, key)
    ensures multiset(r) == multiset(s) + multiset{x}
    ensures SortedDesc(r, key)
  {
    if s == [] then [x]
    else if Outranks(key(x), key(s[0])) then [x] + s
    else
      var rest := InsertDesc(x, s[1..], key);
      assert s == [s[0]] + s[1..];
      HeadOutranksInserted(x, s, key, rest);
      SortedCons(s[0], rest, key);
      [s[0]] + rest
  }

  /** The head of a sorted sequence outranks every element once x, ranked below it, joins the tail. */
  lemma HeadOutranksInserted<T>(x: T, s: seq<T>, key: T -> Option<real>, rest: seq<T>)
    requires SortedDesc(s, key) && s != [] && !Outranks(key(x), key(s[0]))
    requires multiset(rest) == multiset(s[1..]) + multiset{x}
    ensures forall j :: 0 <= j < |rest| ==> Outranks(key(s[0]), key(rest[j]))
  {
    forall j | 0 <= j < |rest|
      ensures Outranks(key(s[0]), key(rest[j]))
    {
      HeadOutranksOne(x, s, key, rest, j);
    }
  }

  lemma HeadOutranksOne<T>(x: T, s: seq<T>, key: T -> Option<real>, rest: seq<T>, j: nat)
    requires SortedDesc(s, key) && s != [] && !Outranks(key(x), key(s[0]))
    requires multiset(rest) == multiset(s[1..]) + multiset{x}
    requires j < |rest|
    ensures Outranks(key(s[0]), key(rest[j]))
  {
    assert rest[j] in multiset(rest);
    if rest[j] == x {
      OutranksTotal(key(x), key(s[0]));
    } else {
      assert rest[j] in multiset(s[1..]);
      var k :| 0 <= k < |s[1..]| && s[1..][k] == rest[j];
      assert s[k + 1] == rest[j];
    }
  }

  /** A head that outranks a sorted tail keeps the sequence sorted. */
  lemma SortedCons<T>(h: T, rest: seq<T>, key: T -> Option<real>)
    requires SortedDesc(rest, key)
    requires forall j :: 0 <= j < |rest| ==> Outranks(key(h), key(rest[j]))
    ensures SortedDesc([h] + rest, key)
  {
    var r := [h] + rest;
    forall i, j | 0 <= i < j < |r|
      ensures Outranks(key(r[i]), key(r[j]))
    {
      assert r[j] == rest[j - 1];
      if i > 0 {
        assert r[i] == rest[i - 1];
      }
    }
  }

  /** sort_values(by=key, ascending=False): a permutation of the input in non-increasing order. */
  function SortDesc<T>(s: seq<T>, key: T -> Option<real>): (r: seq<T>)
    ensures multiset(r) == multiset(s)
    ensures SortedDesc(r, key)
  {
    if s == [] then []
    else
      assert s == [s[0]] + s[1..];
      InsertDesc(s[0], SortDesc(s[1..], key), key)
  }

  /** nlargest(n): the n rows of highest key (all of them when there are fewer), highest first. */
  function TopN<T>(s: seq<T>, key: T -> Option<real>, n: nat): (r: seq<T>)
    ensures |r| == if n < |s| then n else |s|
    ensures SortedDesc(r, key)
    ensures multiset(r) <= multiset(s)
  {
    var sorted := SortDesc(s, key);
    assert |sorted| == |s| by { assert |multiset(sorted)| == |multiset(s)|; }
    var m := if n < |s| then n else |s|;
    assert sorted == sorted[..m] + sorted[m..];
    sorted[..m]
  }

  /** Every row that nlargest leaves out ranks at or below every row it returns. */
  lemma TopNLeavesOutLower<T>(s: seq<T>, key: T -> Option<real>, n: nat)
    ensures var r := TopN(s, key, n);
            forall x, y :: x in r && y in multiset(s) - multiset(r) ==> Outranks(key(x), key(y))
  {
    var sorted := SortDesc(s, key);
    assert |sorted| == |s| by { assert |multiset(sorted)| == |multiset(s)|; }
    var m := if n < |s| then n else |s|;
    assert TopN(s, key, n) == sorted[..m];
    MultisetOfCut(sorted, m);
    SortedSplit(sorted, key, m);
  }

  /** Removing a prefix's elements from a sequence's multiset leaves those of the suffix. */
  lemma MultisetOfCut<T>(a: seq<T>, m: nat)
    requires m <= |a|
    ensures multiset(a) - multiset(a[..m]) == multiset(a[m..])
  {
    assert a == a[..m] + a[m..];
  }

  /** A row of the input that nlargest(n) does not return is left out only when n rows are
      returned, and each returned row ranks at or above it. */
  lemma TopNOmitted<T>(s: seq<T>, key: T -> Option<real>, n: nat, g: T)
    requires g in s && g !in TopN(s, key, n)
    ensures |TopN(s, key, n)| == n
    ensures forall x :: x in TopN(s, key, n) ==> Outranks(key(x), key(g))
  {
    var r := TopN(s, key, n);
    var left := multiset(s) - multiset(r);
    assert g in left by { assert g in multiset(s); }
    assert multiset(s) == multiset(r) + left;
    assert |s| > |r|;
    TopNLeavesOutLower(s, key, n);
  }

  /** Cutting a sorted sequence leaves every element of the front at or above every element of the back. */
  lemma SortedSplit<T>(sorted: seq<T>, key: T -> Option<real>, m: nat)
    requires SortedDesc(sorted, key) && m <= |sorted|
    ensures forall x, y :: x in sorted[..m] && y in multiset(sorted[m..]) ==> Outranks(key(x), key(y))
  {
    forall x, y | x in sorted[..m] && y in multiset(sorted[m..])
      ensures Outranks(key(x), key(y))
    {
      var i :| 0 <= i < m && sorted[..m][i] == x;
      var j :| 0 <= j < |sorted[m..]| && sorted[m..][j] == y;
      assert sorted[i] == x && sorted[m + j] == y;
    }
  }

  /** An element of a sub-multiset occurs in the larger sequence. */
  lemma ElementOfSubmultiset<T>(a: seq<T>, b: seq<T>, i: nat)
    requires multiset(a) <= multiset(b) && i < |a|
    ensures exists j :: 0 <= j < |b| && b[j] == a[i]
  {
    assert a[i] in multiset(a);
    assert a[i] in multiset(b);
  }
}
