/** groupby(key).sum(): rows reduced to a key and measures, summed per distinct key. */
module Grouping {
  import opened Wrappers
  import opened Selection

  /** The summed measures of a row or a group: an amount and a count. */
  datatype Totals = Totals(amount: real, count: real)
  {
    function Plus(other: Totals): Totals
    {
      Totals(amount + other.amount, count + other.count)
    }
  }

  const Zero: Totals := Totals(0.0, 0.0)

  lemma PlusAssociative(a: Totals, b: Totals, c: Totals)
    ensures a.Plus(b).Plus(c) == a.Plus(b.Plus(c))
  {
  }

  /** A row seen through a grouping (its key and its measures), or a finished group. */
  datatype Entry<K> = Entry(key: K, totals: Totals)

  /** The rows of a frame as entries, one per row and in the same order. */
  function Observe<R, K>(rows: seq<R>, f: R -> Entry<K>): (r: seq<Entry<K>>)
    ensures |r| == |rows|
    ensures forall i :: 0 <= i < |rows| ==> r[i] == f(rows[i])
  {
    if rows == [] then [] else [f(rows[0])] + Observe(rows[1..], f)
  }

  function Keys<K(==)>(s: seq<Entry<K>>): set<K>
  {
    set e | e in s :: e.key
  }

  predicate DistinctKeys<K(==)>(s: seq<Entry<K>>)
  {
    forall i, j :: 0 <= i < j < |s| ==> s[i].key != s[j].key
  }

  /** The measures summed over the entries whose key is k. */
  function KeyTotal<K(==)>(s: seq<Entry<K>>, k: K): Totals
  {
    if s == [] then Zero else (if s[0].key == k then s[0].totals else Zero).Plus(KeyTotal(s[1..], k))
  }

  /** The measures summed over all entries. */
  function Sum<K(==)>(s: seq<Entry<K>>): Totals
  {
    if s == [] then Zero else s[0].totals.Plus(Sum(s[1..]))
  }

  /** Adds one entry to a table of groups: into the group of its key, or as a new last group. */
  function AddTo<K(==)>(groups: seq<Entry<K>>, e: Entry<K>): seq<Entry<K>>
  {
    if groups == [] then [e]
    else if groups[0].key == e.key then [Entry(e.key, groups[0].totals.Plus(e.totals))] + groups[1..]
    else [groups[0]] + AddTo(groups[1..], e)
  }

  /** Adds the entries of s, first to last, to a table of groups. */
  function GroupInto<K(==)>(groups: seq<Entry<K>>, s: seq<Entry<K>>): seq<Entry<K>>
    decreases |s|
  {
    if s == [] then groups else GroupInto(AddTo(groups, s[0]), s[1..])
  }

  /** One group per distinct key of s, holding the summed measures of that key's rows. */
  function GroupSum<K(==)>(s: seq<Entry<K>>): seq<Entry<K>>
  {
    GroupInto([], s)
  }

  // ---------------------------------------------------------------------------
  // Adding one entry
  // ---------------------------------------------------------------------------

  lemma {:induction false} KeysCons<K>(e: Entry<K>, s: seq<Entry<K>>)
    ensures Keys([e] + s) == {e.key} + Keys(s)
  {
    var t := [e] + s;
    forall k | k in Keys(t) ensures k in {e.key} + Keys(s) {
      var x :| x in t && x.key == k;
      if x != e { assert x in s; }
    }
    forall k | k in {e.key} + Keys(s) ensures k in Keys(t) {
      if k != e.key {
        var x :| x in s && x.key == k;
        assert x in t;
      } else {
        assert e in t;
      }
    }
  }

  lemma {:induction false} AddToKeys<K>(groups: seq<Entry<K>>, e: Entry<K>)
    ensures Keys(AddTo(groups, e)) == Keys(groups) + {e.key}
  {
    if groups == [] {
      assert Keys([e]) == {e.key} by { KeysCons(e, []); }
    } else {
      assert groups == [groups[0]] + groups[1..];
      KeysCons(groups[0], groups[1..]);
      if groups[0].key == e.key {
        KeysCons(Entry(e.key, groups[0].totals.Plus(e.totals)), groups[1..]);
      } else {
        AddToKeys(groups[1..], e);
        KeysCons(groups[0], AddTo(groups[1..], e));
      }
    }
  }

  lemma {:induction false} AddToDistinct<K>(groups: seq<Entry<K>>, e: Entry<K>)
    requires DistinctKeys(groups)
    ensures DistinctKeys(AddTo(groups, e))
  {
    if groups != [] && groups[0].key != e.key {
      var rest := AddTo(groups[1..], e);
      AddToDistinct(groups[1..], e);
      AddToKeys(groups[1..], e);
      forall j | 0 <= j < |rest| ensures rest[j].key != groups[0].key {
        assert rest[j].key in Keys(rest);
        if rest[j].key != e.key {
          assert rest[j].key in Keys(groups[1..]);
          var x :| x in groups[1..] && x.key == rest[j].key;
          var m :| 0 <= m < |groups[1..]| && groups[1..][m] == x;
          assert groups[m + 1] == x;
        }
      }
    }
  }

  lemma {:induction false} AddToKeyTotal<K>(groups: seq<Entry<K>>, e: Entry<K>, k: K)
    ensures KeyTotal(AddTo(groups, e), k) == KeyTotal(groups, k).Plus(if k == e.key then e.totals else Zero)
  {
    if groups == [] {
      assert [e][1..] == [];
    } else if groups[0].key == e.key {
      assert ([Entry(e.key, groups[0].totals.Plus(e.totals))] + groups[1..])[1..] == groups[1..];
    } else {
      AddToKeyTotal(groups[1..], e, k);
      assert ([groups[0]] + AddTo(groups[1..], e))[1..] == AddTo(groups[1..], e);
    }
  }

  lemma {:induction false} AddToSum<K>(groups: seq<Entry<K>>, e: Entry<K>)
    ensures Sum(AddTo(groups, e)) == Sum(groups).Plus(e.totals)
  {
    if groups == [] {
      assert [e][1..] == [];
    } else if groups[0].key == e.key {
      assert ([Entry(e.key, groups[0].totals.Plus(e.totals))] + groups[1..])[1..] == groups[1..];
    } else {
      AddToSum(groups[1..], e);
      assert ([groups[0]] + AddTo(groups[1..], e))[1..] == AddTo(groups[1..], e);
    }
  }

  /** An entry with a new key is appended unchanged. */
  lemma {:induction false} AddToNewKey<K>(groups: seq<Entry<K>>, e: Entry<K>)
    requires e.key !in Keys(groups)
    ensures AddTo(groups, e) == groups + [e]
  {
    if groups != [] {
      assert groups[0] in groups;
      assert Keys(groups[1..]) <= Keys(groups) by {
        forall k | k in Keys(groups[1..]) ensures k in Keys(groups) {
          var x :| x in groups[1..] && x.key == k;
          assert x in groups;
        }
      }
      AddToNewKey(groups[1..], e);
      assert groups == [groups[0]] + groups[1..];
    }
  }

  // ---------------------------------------------------------------------------
  // Grouping a whole frame
  // ---------------------------------------------------------------------------

  lemma {:induction false} GroupIntoKeys<K>(groups: seq<Entry<K>>, s: seq<Entry<K>>)
    requires DistinctKeys(groups)
    ensures DistinctKeys(GroupInto(groups, s))
    ensures Keys(GroupInto(groups, s)) == Keys(groups) + Keys(s)
    decreases |s|
  {
    if s == [] {
      assert Keys(s) == {};
    } else {
      AddToDistinct(groups, s[0]);
      AddToKeys(groups, s[0]);
      GroupIntoKeys(AddTo(groups, s[0]), s[1..]);
      assert s == [s[0]] + s[1..];
      KeysCons(s[0], s[1..]);
    }
  }

  lemma {:induction false} GroupIntoKeyTotal<K>(groups: seq<Entry<K>>, s: seq<Entry<K>>, k: K)
    ensures KeyTotal(GroupInto(groups, s), k) == KeyTotal(groups, k).Plus(KeyTotal(s, k))
    decreases |s|
  {
    if s != [] {
      var a, b := KeyTotal(groups, k), KeyTotal(s[1..], k);
      var x := if s[0].key == k then s[0].totals else Zero;
      assert KeyTotal(s, k) == x.Plus(b);
      AddToKeyTotal(groups, s[0], k);
      GroupIntoKeyTotal(AddTo(groups, s[0]), s[1..], k);
      PlusAssociative(a, x, b);
    }
  }

  lemma {:induction false} GroupIntoSum<K>(groups: seq<Entry<K>>, s: seq<Entry<K>>)
    ensures Sum(GroupInto(groups, s)) == Sum(groups).Plus(Sum(s))
    decreases |s|
  {
    if s != [] {
      AddToSum(groups, s[0]);
      GroupIntoSum(AddTo(groups, s[0]), s[1..]);
      PlusAssociative(Sum(groups), s[0].totals, Sum(s[1..]));
    }
  }

  /** A table with distinct keys gives each key's group as that key's total. */
  lemma {:induction false} KeyTotalOfDistinct<K>(s: seq<Entry<K>>, i: nat)
    requires DistinctKeys(s) && i < |s|
    ensures KeyTotal(s, s[i].key) == s[i].totals
  {
    var k := s[i].key;
    assert DistinctKeys(s[1..]) by {
      forall a, b | 0 <= a < b < |s[1..]| ensures s[1..][a].key != s[1..][b].key {
        assert s[a + 1].key != s[b + 1].key;
      }
    }
    if i == 0 {
      forall j | 0 <= j < |s[1..]| ensures s[1..][j].key != k {
        assert s[j + 1].key != s[0].key;
      }
      KeyTotalAbsent(s[1..], k);
      assert KeyTotal(s, k) == s[0].totals.Plus(Zero);
    } else {
      assert s[1..][i - 1] == s[i];
      KeyTotalOfDistinct(s[1..], i - 1);
      assert s[0].key != k;
      assert KeyTotal(s, k) == Zero.Plus(KeyTotal(s[1..], k));
    }
  }

  /** A key that no entry has totals to zero. */
  lemma {:induction false} KeyTotalAbsent<K>(s: seq<Entry<K>>, k: K)
    requires forall i :: 0 <= i < |s| ==> s[i].key != k
    ensures KeyTotal(s, k) == Zero
  {
    if s != [] {
      KeyTotalAbsent(s[1..], k);
    }
  }

  /** groupby(key).sum(): one group per distinct key present in the input and no other,
      each holding the sum over that key's rows; all groups together hold the input's sum. */
  lemma GroupSumCorrect<K>(s: seq<Entry<K>>)
    ensures DistinctKeys(GroupSum(s))
    ensures Keys(GroupSum(s)) == Keys(s)
    ensures forall i :: 0 <= i < |GroupSum(s)| ==> GroupSum(s)[i].totals == KeyTotal(s, GroupSum(s)[i].key)
    ensures Sum(GroupSum(s)) == Sum(s)
  {
    var g := GroupSum(s);
    var empty: seq<Entry<K>> := [];
    assert Keys(empty) == {};
    GroupIntoKeys(empty, s);
    GroupIntoSum(empty, s);
    forall i | 0 <= i < |g| ensures g[i].totals == KeyTotal(s, g[i].key) {
      KeyTotalOfDistinct(g, i);
      GroupIntoKeyTotal(empty, s, g[i].key);
      assert KeyTotal(g, g[i].key) == KeyTotal(empty, g[i].key).Plus(KeyTotal(s, g[i].key));
    }
  }

  lemma KeyIndex<K>(s: seq<Entry<K>>, k: K) returns (j: nat)
    requires k in Keys(s)
    ensures j < |s| && s[j].key == k
  {
    var e :| e in s && e.key == k;
    j :| 0 <= j < |s| && s[j] == e;
  }

  /** Grouping keeps the key set and makes the keys distinct. */
  lemma GroupSumKeys<K>(s: seq<Entry<K>>)
    ensures DistinctKeys(GroupSum(s)) && Keys(GroupSum(s)) == Keys(s)
  {
    var empty: seq<Entry<K>> := [];
    assert Keys(empty) == {};
    GroupIntoKeys(empty, s);
  }

  lemma RowHasGroup<R, K>(rows: seq<R>, f: R -> Entry<K>, i: nat) returns (j: nat)
    requires i < |rows|
    ensures j < |GroupSum(Observe(rows, f))| && GroupSum(Observe(rows, f))[j].key == f(rows[i]).key
  {
    var obs := Observe(rows, f);
    GroupSumKeys(obs);
    assert obs[i] in obs;
    j := KeyIndex(GroupSum(obs), obs[i].key);
  }

  lemma GroupHasRow<R, K>(rows: seq<R>, f: R -> Entry<K>, j: nat) returns (i: nat)
    requires j < |GroupSum(Observe(rows, f))|
    ensures i < |rows| && f(rows[i]).key == GroupSum(Observe(rows, f))[j].key
  {
    var obs := Observe(rows, f);
    var groups := GroupSum(obs);
    GroupSumKeys(obs);
    assert groups[j] in groups;
    i := KeyIndex(obs, groups[j].key);
  }

  /** Grouping the rows of a frame: one group per key that some row has, and no other. */
  lemma GroupsOfRows<R, K>(rows: seq<R>, f: R -> Entry<K>)
    ensures var groups := GroupSum(Observe(rows, f));
            && DistinctKeys(groups)
            && (forall i :: 0 <= i < |rows| ==> exists j :: 0 <= j < |groups| && groups[j].key == f(rows[i]).key)
            && (forall j :: 0 <= j < |groups| ==> exists i :: 0 <= i < |rows| && f(rows[i]).key == groups[j].key)
  {
    GroupSumKeys(Observe(rows, f));
    RowsHaveGroups(rows, f);
    GroupsHaveRows(rows, f);
    var groups := GroupSum(Observe(rows, f));
    forall i | 0 <= i < |rows|
      ensures exists j :: 0 <= j < |groups| && groups[j].key == f(rows[i]).key
    {
      assert HasKey(groups, f(rows[i]).key);
    }
  }

  /** Some entry of s has key k. */
  ghost predicate HasKey<K>(s: seq<Entry<K>>, k: K)
  {
    exists j :: 0 <= j < |s| && s[j].key == k
  }

  lemma RowsHaveGroups<R, K>(rows: seq<R>, f: R -> Entry<K>)
    ensures forall i :: 0 <= i < |rows| ==> HasKey(GroupSum(Observe(rows, f)), f(rows[i]).key)
  {
    forall i | 0 <= i < |rows|
      ensures HasKey(GroupSum(Observe(rows, f)), f(rows[i]).key)
    {
      var j := RowHasGroup(rows, f, i);
    }
  }

  lemma GroupsHaveRows<R, K>(rows: seq<R>, f: R -> Entry<K>)
    ensures var groups := GroupSum(Observe(rows, f));
            forall j :: 0 <= j < |groups| ==> exists i :: 0 <= i < |rows| && f(rows[i]).key == groups[j].key
  {
    var groups := GroupSum(Observe(rows, f));
    forall j | 0 <= j < |groups|
      ensures exists i :: 0 <= i < |rows| && f(rows[i]).key == groups[j].key
    {
      var i := GroupHasRow(rows, f, j);
      assert f(rows[i]).key == groups[j].key;
    }
  }

  /** Grouping the rows of a frame: each group holds the sum over the rows of its key. */
  lemma GroupTotalsOfRows<R, K>(rows: seq<R>, f: R -> Entry<K>, j: nat, sel: R -> bool, m: R -> Totals)
    requires j < |GroupSum(Observe(rows, f))|
    requires forall i :: 0 <= i < |rows| ==>
               (f(rows[i]).key == GroupSum(Observe(rows, f))[j].key) == sel(rows[i]) && f(rows[i]).totals == m(rows[i])
    ensures GroupSum(Observe(rows, f))[j].totals == SumOf(rows, sel, m)
  {
    GroupSumCorrect(Observe(rows, f));
    KeyTotalIsSumOf(rows, f, GroupSum(Observe(rows, f))[j].key, sel, m);
  }

  lemma {:induction false} GroupIntoDistinct<K>(groups: seq<Entry<K>>, s: seq<Entry<K>>)
    requires DistinctKeys(groups + s)
    ensures GroupInto(groups, s) == groups + s
    decreases |s|
  {
    if s == [] {
      assert groups + s == groups;
    } else {
      assert forall m :: 0 <= m < |groups| ==> groups[m].key != s[0].key by {
        forall m | 0 <= m < |groups| ensures groups[m].key != s[0].key {
          assert (groups + s)[m] == groups[m];
          assert (groups + s)[|groups|] == s[0];
        }
      }
      assert s[0].key !in Keys(groups);
      AddToNewKey(groups, s[0]);
      assert groups + s == (groups + [s[0]]) + s[1..];
      GroupIntoDistinct(groups + [s[0]], s[1..]);
    }
  }

  /** Grouping an already grouped table again changes nothing. */
  lemma GroupSumIdempotent<K>(s: seq<Entry<K>>)
    ensures GroupSum(GroupSum(s)) == GroupSum(s)
  {
    GroupSumCorrect(s);
    var g := GroupSum(s);
    assert [] + g == g;
    GroupIntoDistinct([], g);
  }

  // ---------------------------------------------------------------------------
  // Reference sums over the rows themselves
  // ---------------------------------------------------------------------------

  /** The measures m summed over the rows that sel picks. */
  function SumOf<R>(rows: seq<R>, sel: R -> bool, m: R -> Totals): Totals
  {
    if rows == [] then Zero else (if sel(rows[0]) then m(rows[0]) else Zero).Plus(SumOf(rows[1..], sel, m))
  }

  /** The total of a key in the observed rows is the sum over the rows that have that key. */
  lemma {:induction false} KeyTotalIsSumOf<R, K>(rows: seq<R>, f: R -> Entry<K>, k: K, sel: R -> bool, m: R -> Totals)
    requires forall i :: 0 <= i < |rows| ==> (f(rows[i]).key == k) == sel(rows[i]) && f(rows[i]).totals == m(rows[i])
    ensures KeyTotal(Observe(rows, f), k) == SumOf(rows, sel, m)
  {
    if rows != [] {
      assert Observe(rows, f)[1..] == Observe(rows[1..], f);
      KeyTotalIsSumOf(rows[1..], f, k, sel, m);
    }
  }

  /** Summing over a filtered frame is summing over the rows that pass both conditions. */
  lemma {:induction false} SumOfFilter<R>(rows: seq<R>, p: R -> bool, sel: R -> bool, both: R -> bool, m: R -> Totals)
    requires forall i :: 0 <= i < |rows| ==> both(rows[i]) == (p(rows[i]) && sel(rows[i]))
    ensures SumOf(Filter(rows, p), sel, m) == SumOf(rows, both, m)
  {
    if rows != [] {
      SumOfFilter(rows[1..], p, sel, both, m);
      if p(rows[0]) {
        assert Filter(rows, p) == [rows[0]] + Filter(rows[1..], p);
        assert Filter(rows, p)[1..] == Filter(rows[1..], p);
      } else {
        assert Filter(rows, p) == Filter(rows[1..], p);
      }
    }
  }

  /** With non-negative measures, a wider selection sums to at least as much. */
  lemma {:induction false} SumOfMonotone<R>(rows: seq<R>, narrow: R -> bool, wide: R -> bool, m: R -> Totals)
    requires forall i :: 0 <= i < |rows| ==> narrow(rows[i]) ==> wide(rows[i])
    requires forall i :: 0 <= i < |rows| ==> m(rows[i]).amount >= 0.0 && m(rows[i]).count >= 0.0
    ensures SumOf(rows, narrow, m).amount <= SumOf(rows, wide, m).amount
    ensures SumOf(rows, narrow, m).count <= SumOf(rows, wide, m).count
  {
    if rows != [] {
      SumOfMonotone(rows[1..], narrow, wide, m);
    }
  }

  /** In a table with distinct keys every group occurs once. */
  lemma OccursOnce<K>(b: seq<Entry<K>>, m: nat)
    requires DistinctKeys(b) && m < |b|
    ensures multiset(b)[b[m]] == 1
  {
    var x := b[m];
    assert b == b[..m] + [x] + b[m + 1..];
    assert multiset(b) == multiset(b[..m]) + multiset{x} + multiset(b[m + 1..]);
    assert x !in b[..m] by {
      forall n | 0 <= n < m ensures b[..m][n] != x { assert b[n].key != b[m].key; }
    }
    assert x !in b[m + 1..] by {
      forall n | m + 1 <= n < |b| ensures b[n] != x { assert b[m].key != b[n].key; }
    }
  }

  /** A selection of the groups of a table with distinct keys has distinct keys too. */
  lemma DistinctKeysOfSubmultiset<K>(a: seq<Entry<K>>, b: seq<Entry<K>>)
    requires DistinctKeys(b) && multiset(a) <= multiset(b)
    ensures DistinctKeys(a)
  {
    forall i, j | 0 <= i < j < |a| ensures a[i].key != a[j].key {
      assert a == a[..j] + a[j..];
      assert multiset(a) == multiset(a[..j]) + multiset(a[j..]);
      assert a[i] in a[..j] && a[j] in a[j..];
      assert multiset(a)[a[i]] >= if a[i] == a[j] then 2 else 1;
      var m :| 0 <= m < |b| && b[m] == a[i] by { assert a[i] in multiset(b); }
      OccursOnce(b, m);
      assert a[i] != a[j];
      var n :| 0 <= n < |b| && b[n] == a[j] by { assert a[j] in multiset(b); }
      assert m != n;
    }
  }

  /** The sort key of sort_values("Amount") and nlargest(n, "Amount") on a grouped table. */
  function ByGroupAmount<K>(e: Entry<K>): Option<real>
  {
    Some(e.totals.amount)
  }

  // Grouping the rows of a frame that pass a filter.

  /** Every row that passes the filter has its group. */
  lemma FilteredRowGroup<R, K>(rows: seq<R>, p: R -> bool, f: R -> Entry<K>, n: nat)
    requires n < |rows| && p(rows[n])
    ensures var groups := GroupSum(Observe(Filter(rows, p), f));
            exists j :: 0 <= j < |groups| && groups[j].key == f(rows[n]).key
  {
    var scope := Filter(rows, p);
    GroupsOfRows(scope, f);
    var m :| 0 <= m < |scope| && scope[m] == rows[n];
    var groups := GroupSum(Observe(scope, f));
    var j :| 0 <= j < |groups| && groups[j].key == f(scope[m]).key;
    assert groups[j].key == f(rows[n]).key;
    assert groups == GroupSum(Observe(Filter(rows, p), f));
  }

  /** Every group comes from a row that passes the filter. */
  lemma FilteredGroupRow<R, K>(rows: seq<R>, p: R -> bool, f: R -> Entry<K>, j: nat)
    requires j < |GroupSum(Observe(Filter(rows, p), f))|
    ensures exists n :: 0 <= n < |rows| && p(rows[n]) && f(rows[n]).key == GroupSum(Observe(Filter(rows, p), f))[j].key
  {
    var scope := Filter(rows, p);
    GroupsOfRows(scope, f);
    var m :| 0 <= m < |scope| && f(scope[m]).key == GroupSum(Observe(scope, f))[j].key;
    var n :| 0 <= n < |rows| && rows[n] == scope[m];
    assert p(rows[n]);
  }

  /** A group's totals are the measures summed over the rows that pass the filter and
      have the group's key. */
  lemma FilteredGroupTotals<R, K>(rows: seq<R>, p: R -> bool, f: R -> Entry<K>, j: nat, both: R -> bool, m: R -> Totals)
    requires j < |GroupSum(Observe(Filter(rows, p), f))|
    requires forall i :: 0 <= i < |rows| ==>
               both(rows[i]) == (p(rows[i]) && f(rows[i]).key == GroupSum(Observe(Filter(rows, p), f))[j].key)
    requires forall i :: 0 <= i < |rows| ==> f(rows[i]).totals == m(rows[i])
    ensures GroupSum(Observe(Filter(rows, p), f))[j].totals == SumOf(rows, both, m)
  {
    var scope := Filter(rows, p);
    var k := GroupSum(Observe(scope, f))[j].key;
    var sel := (x: R) => f(x).key == k;
    forall i | 0 <= i < |scope| ensures (f(scope[i]).key == k) == sel(scope[i]) && f(scope[i]).totals == m(scope[i]) {
      var n :| 0 <= n < |rows| && rows[n] == scope[i];
    }
    GroupTotalsOfRows(scope, f, j, sel, m);
    SumOfFilter(rows, p, sel, both, m);
  }
}
