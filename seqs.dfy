/** Sequence operations that stand for the pandas and Python idioms the
    source uses over the row snapshot: boolean-mask filters, `sum`,
    `groupby(...).sum()`, `unique`, `value_counts` counting, `head(n)` and
    `sort_values(ascending=False)` with NaN placed last. */
module Seqs {
  import opened Strings

  /** `s[p(s)]`: the elements that satisfy `p`, in their original order. */
  function Filter<T(==,!new)>(s: seq<T>, p: T -> bool): (r: seq<T>)
    ensures |r| <= |s|
    ensures forall i :: 0 <= i < |r| ==> p(r[i])
  {
    if s == [] then []
    else
      (if p(s[0]) then [s[0]] else []) + Filter(s[1..], p)
  }

  /** The filter keeps every satisfying element with its multiplicity,
      and nothing else. */
  lemma {:induction false} FilterMultiset<T(!new)>(s: seq<T>, p: T -> bool)
    ensures forall x :: multiset(Filter(s, p))[x] == if p(x) then multiset(s)[x] else 0
    ensures forall x :: x in Filter(s, p) <==> x in s && p(x)
  {
    if s != [] {
      assert s == [s[0]] + s[1..];
      FilterMultiset(s[1..], p);
    }
  }

  lemma {:induction false} FilterConcat<T(!new)>(a: seq<T>, b: seq<T>, p: T -> bool)
    ensures Filter(a + b, p) == Filter(a, p) + Filter(b, p)
  {
    if a == [] {
      assert a + b == b;
    } else {
      var ab := a + b;
      assert ab[0] == a[0] && ab[1..] == a[1..] + b;
      FilterConcat(a[1..], b, p);
      var h := if p(a[0]) then [a[0]] else [];
      assert Filter(ab, p) == h + Filter(a[1..] + b, p);
      assert Filter(a, p) == h + Filter(a[1..], p);
    }
  }

  /** Each kept element comes from some position of the input ... */
  lemma FilterIndexFrom<T(!new)>(s: seq<T>, p: T -> bool, k: int) returns (i: int)
    requires 0 <= k < |Filter(s, p)|
    ensures 0 <= i < |s| && s[i] == Filter(s, p)[k] && p(s[i])
  {
    FilterMultiset(s, p);
    var x := Filter(s, p)[k];
    assert x in Filter(s, p);
    i :| 0 <= i < |s| && s[i] == x;
  }

  /** ... and each element that satisfies the mask is kept. */
  lemma FilterIndexTo<T(!new)>(s: seq<T>, p: T -> bool, i: int) returns (k: int)
    requires 0 <= i < |s| && p(s[i])
    ensures 0 <= k < |Filter(s, p)| && Filter(s, p)[k] == s[i]
  {
    FilterMultiset(s, p);
    assert s[i] in s;
    k :| 0 <= k < |Filter(s, p)| && Filter(s, p)[k] == s[i];
  }

  lemma {:induction false} FilterAll<T(!new)>(s: seq<T>, p: T -> bool)
    requires forall i :: 0 <= i < |s| ==> p(s[i])
    ensures Filter(s, p) == s
  {
    if s != [] {
      assert p(s[0]);
      FilterAll(s[1..], p);
    }
  }

  /** Dropping two failing elements from between passing runs. */
  lemma FilterDropsTwo<T(!new)>(a: seq<T>, x: T, b: seq<T>, y: T, p: T -> bool)
    requires forall i :: 0 <= i < |a| ==> p(a[i])
    requires forall i :: 0 <= i < |b| ==> p(b[i])
    requires !p(x) && !p(y)
    ensures Filter(a + [x] + b + [y], p) == a + b
  {
    assert Filter([x], p) == [] by { assert [x][1..] == []; }
    assert Filter([y], p) == [] by { assert [y][1..] == []; }
    FilterAll(a, p);
    FilterAll(b, p);
    FilterConcat(a, [x], p);
    var ax := a + [x];
    assert Filter(ax, p) == a;
    FilterConcat(ax, b, p);
    var axb := ax + b;
    assert Filter(axb, p) == a + b;
    FilterConcat(axb, [y], p);
  }

  /** Two masks that agree on every element of `s` select the same elements. */
  lemma {:induction false} FilterAgree<T(!new)>(s: seq<T>, p: T -> bool, q: T -> bool)
    requires forall i :: 0 <= i < |s| ==> p(s[i]) == q(s[i])
    ensures Filter(s, p) == Filter(s, q)
  {
    if s != [] {
      assert p(s[0]) == q(s[0]);
      FilterAgree(s[1..], p, q);
    }
  }

  /** Two masks that agree everywhere select the same elements. */
  lemma {:induction false} FilterSameMask<T(!new)>(s: seq<T>, p: T -> bool, q: T -> bool)
    requires forall x :: p(x) == q(x)
    ensures Filter(s, p) == Filter(s, q)
  {
    if s != [] { FilterSameMask(s[1..], p, q); }
  }

  /** A mask and its negation split a sequence into two parts that together
      hold every element once. */
  lemma FilterSplit<T(!new)>(s: seq<T>, p: T -> bool, q: T -> bool)
    requires forall x :: q(x) == !p(x)
    ensures multiset(Filter(s, p)) + multiset(Filter(s, q)) == multiset(s)
  {
    FilterMultiset(s, p);
    FilterMultiset(s, q);
    assert forall x :: (multiset(Filter(s, p)) + multiset(Filter(s, q)))[x] == multiset(s)[x];
  }

  /** ... and whose totals add up to the whole. */
  lemma {:induction false} FilterSplitSum<T(!new)>(s: seq<T>, p: T -> bool, q: T -> bool, f: T -> real)
    requires forall x :: q(x) == !p(x)
    ensures Sum(Filter(s, p), f) + Sum(Filter(s, q), f) == Sum(s, f)
  {
    if s != [] {
      FilterSplitSum(s[1..], p, q, f);
      var tp := Filter(s[1..], p);
      var tq := Filter(s[1..], q);
      assert Sum(s, f) == f(s[0]) + Sum(s[1..], f);
      if p(s[0]) {
        assert !q(s[0]);
        assert Filter(s, p) == [s[0]] + tp;
        assert Filter(s, q) == tq;
        SumConcat([s[0]], tp, f);
        assert Sum([s[0]], f) == f(s[0]);
      } else {
        assert q(s[0]);
        assert Filter(s, p) == tp;
        assert Filter(s, q) == [s[0]] + tq;
        SumConcat([s[0]], tq, f);
        assert Sum([s[0]], f) == f(s[0]);
      }
    }
  }

  /** `sum(f(x) for x in s)`. */
  function Sum<T>(s: seq<T>, f: T -> real): real {
    if s == [] then 0.0 else f(s[0]) + Sum(s[1..], f)
  }

  lemma {:induction false} SumConcat<T>(a: seq<T>, b: seq<T>, f: T -> real)
    ensures Sum(a + b, f) == Sum(a, f) + Sum(b, f)
  {
    if a == [] {
      assert a + b == b;
    } else {
      var ab := a + b;
      assert ab[0] == a[0] && ab[1..] == a[1..] + b;
      SumConcat(a[1..], b, f);
    }
  }

  lemma {:induction false} SumNonNegative<T>(s: seq<T>, f: T -> real)
    requires forall i :: 0 <= i < |s| ==> f(s[i]) >= 0.0
    ensures Sum(s, f) >= 0.0
  {
    if s != [] { SumNonNegative(s[1..], f); }
  }

  /** `s.groupby(key)[...].sum()` at one group: the `f` total of the elements
      whose key is `k` (0 when the group is empty). */
  function GroupSum<T, K(==)>(s: seq<T>, key: T -> K, k: K, f: T -> real): real {
    if s == [] then 0.0
    else (if key(s[0]) == k then f(s[0]) else 0.0) + GroupSum(s[1..], key, k, f)
  }

  lemma {:induction false} GroupSumEmpty<T, K>(s: seq<T>, key: T -> K, k: K, f: T -> real)
    requires forall i :: 0 <= i < |s| ==> key(s[i]) != k
    ensures GroupSum(s, key, k, f) == 0.0
  {
    if s != [] { GroupSumEmpty(s[1..], key, k, f); }
  }

  /** The sum of the group totals over a list of group keys. */
  function SumGroups<T, K(==)>(s: seq<T>, key: T -> K, keys: seq<K>, f: T -> real): real {
    if keys == [] then 0.0 else GroupSum(s, key, keys[0], f) + SumGroups(s, key, keys[1..], f)
  }

  /** The identity on amounts, for summing a list of numbers. */
  function Id(x: real): real { x }

  /** The group totals read out at each key of `keys`, in that order
      (`fill_value=0` for a key no element has). */
  function GroupSums<T, K(==)>(s: seq<T>, key: T -> K, keys: seq<K>, f: T -> real): (r: seq<real>)
    ensures |r| == |keys| && forall i :: 0 <= i < |keys| ==> r[i] == GroupSum(s, key, keys[i], f)
  {
    seq(|keys|, i requires 0 <= i < |keys| => GroupSum(s, key, keys[i], f))
  }

  /** Adding up the read-out group totals is summing the groups. */
  lemma {:induction false} SumOfGroupSums<T, K>(s: seq<T>, key: T -> K, keys: seq<K>, f: T -> real)
    ensures Sum(GroupSums(s, key, keys, f), Id) == SumGroups(s, key, keys, f)
  {
    if keys != [] {
      assert GroupSums(s, key, keys, f)[1..] == GroupSums(s, key, keys[1..], f);
      SumOfGroupSums(s, key, keys[1..], f);
    }
  }

  /** `cumsum()`: each entry adds the next number to the one before it. */
  function RunningSums(xs: seq<real>): (r: seq<real>)
    ensures |r| == |xs|
    ensures forall i :: 0 <= i < |xs| ==> r[i] == Sum(xs[..i + 1], Id)
  {
    if xs == [] then []
    else
      var init := xs[..|xs| - 1];
      var p := RunningSums(init);
      var x := xs[|xs| - 1];
      var r := p + [(if p == [] then 0.0 else p[|p| - 1]) + x];
      RunningSumsStep(xs, p, r);
      r
  }

  lemma RunningSumsStep(xs: seq<real>, p: seq<real>, r: seq<real>)
    requires xs != []
    requires |p| == |xs| - 1
    requires forall i :: 0 <= i < |p| ==> p[i] == Sum(xs[..|xs| - 1][..i + 1], Id)
    requires r == p + [(if p == [] then 0.0 else p[|p| - 1]) + xs[|xs| - 1]]
    ensures forall i :: 0 <= i < |xs| ==> r[i] == Sum(xs[..i + 1], Id)
  {
    var n := |xs|;
    var init := xs[..n - 1];
    forall i | 0 <= i < n ensures r[i] == Sum(xs[..i + 1], Id) {
      if i < n - 1 {
        assert init[..i + 1] == xs[..i + 1];
      } else {
        assert xs[..n] == init + [xs[n - 1]];
        SumConcat(init, [xs[n - 1]], Id);
        assert [xs[n - 1]][1..] == [];
        if p != [] {
          assert init[..n - 1] == init;
        } else {
          assert init == [];
        }
      }
    }
  }

  /** `[g(x) for x in s]`. */
  function MapSeq<T, U>(s: seq<T>, g: T -> U): (r: seq<U>)
    ensures |r| == |s| && forall i :: 0 <= i < |s| ==> r[i] == g(s[i])
  {
    seq(|s|, i requires 0 <= i < |s| => g(s[i]))
  }

  /** A loop that appends `f(x)`'s items to a list for each `x` in turn. */
  function Collect<T, U>(s: seq<T>, f: T -> seq<U>): seq<U> {
    if s == [] then [] else f(s[0]) + Collect(s[1..], f)
  }

  lemma {:induction false} CollectConcat<T, U>(a: seq<T>, b: seq<T>, f: T -> seq<U>)
    ensures Collect(a + b, f) == Collect(a, f) + Collect(b, f)
  {
    if a == [] {
      assert a + b == b;
    } else {
      assert (a + b)[0] == a[0] && (a + b)[1..] == a[1..] + b;
      CollectConcat(a[1..], b, f);
    }
  }

  lemma CollectSingle<T, U>(x: T, f: T -> seq<U>)
    ensures Collect([x], f) == f(x)
  {
    assert [x][1..] == [];
  }

  /** Nothing is collected exactly when no element contributes anything. */
  lemma {:induction false} CollectEmpty<T, U>(s: seq<T>, f: T -> seq<U>)
    ensures Collect(s, f) == [] <==> forall i :: 0 <= i < |s| ==> f(s[i]) == []
  {
    if s != [] {
      CollectEmpty(s[1..], f);
      assert forall i :: 1 <= i < |s| ==> s[i] == s[1..][i - 1];
    }
  }

  /** An item is collected exactly when some element contributes it. */
  lemma {:induction false} CollectMembers<T, U>(s: seq<T>, f: T -> seq<U>, y: U)
    ensures y in Collect(s, f) <==> exists i :: 0 <= i < |s| && y in f(s[i])
  {
    if s != [] {
      CollectMembers(s[1..], f, y);
      if y in Collect(s[1..], f) {
        var i :| 0 <= i < |s[1..]| && y in f(s[1..][i]);
        assert s[i + 1] == s[1..][i];
      }
      if exists i :: 0 <= i < |s| && y in f(s[i]) {
        var i :| 0 <= i < |s| && y in f(s[i]);
        if i > 0 { assert s[1..][i - 1] == s[i]; }
      }
    }
  }

  predicate NoDuplicates<T(==)>(s: seq<T>) {
    forall i, j :: 0 <= i < j < |s| ==> s[i] != s[j]
  }

  lemma GroupSumSingle<T, K>(x: T, key: T -> K, k: K, f: T -> real)
    ensures GroupSum([x], key, k, f) == if key(x) == k then f(x) else 0.0
  {
    assert [x][1..] == [];
  }

  lemma {:induction false} SumGroupsSingle<T, K>(x: T, key: T -> K, keys: seq<K>, f: T -> real)
    requires NoDuplicates(keys) && key(x) in keys
    ensures SumGroups([x], key, keys, f) == f(x)
  {
    GroupSumSingle(x, key, keys[0], f);
    if keys[0] == key(x) {
      GroupSumsZero(x, key, keys[1..], f);
    } else {
      SumGroupsSingle(x, key, keys[1..], f);
    }
  }

  lemma {:induction false} GroupSumsZero<T, K>(x: T, key: T -> K, keys: seq<K>, f: T -> real)
    requires key(x) !in keys
    ensures SumGroups([x], key, keys, f) == 0.0
  {
    if keys != [] {
      GroupSumSingle(x, key, keys[0], f);
      GroupSumsZero(x, key, keys[1..], f);
    }
  }

  lemma {:induction false} SumGroupsCons<T, K>(s: seq<T>, key: T -> K, keys: seq<K>, f: T -> real)
    requires s != []
    ensures SumGroups(s, key, keys, f) == SumGroups([s[0]], key, keys, f) + SumGroups(s[1..], key, keys, f)
  {
    if keys != [] {
      GroupSumSingle(s[0], key, keys[0], f);
      SumGroupsCons(s, key, keys[1..], f);
    }
  }

  /** Summing the groups over a key list that names every element's key once
      gives the total: grouping neither loses nor double-counts a row. */
  lemma {:induction false} SumGroupsCovers<T, K>(s: seq<T>, key: T -> K, keys: seq<K>, f: T -> real)
    requires NoDuplicates(keys)
    requires forall i :: 0 <= i < |s| ==> key(s[i]) in keys
    ensures SumGroups(s, key, keys, f) == Sum(s, f)
  {
    if s == [] {
      SumGroupsOfEmpty(key, keys, f);
    } else {
      SumGroupsCons(s, key, keys, f);
      SumGroupsSingle(s[0], key, keys, f);
      SumGroupsCovers(s[1..], key, keys, f);
    }
  }

  lemma {:induction false} SumGroupsOfEmpty<T, K>(key: T -> K, keys: seq<K>, f: T -> real)
    ensures SumGroups([], key, keys, f) == 0.0
  {
    if keys != [] { SumGroupsOfEmpty(key, keys[1..], f); }
  }

  /** Filtering keeps a list free of repeats. */
  lemma {:induction false} FilterNoDuplicates<T(!new)>(s: seq<T>, p: T -> bool)
    requires NoDuplicates(s)
    ensures NoDuplicates(Filter(s, p))
  {
    if s != [] {
      var t := Filter(s[1..], p);
      FilterNoDuplicates(s[1..], p);
      FilterMultiset(s[1..], p);
      assert s[0] !in s[1..] by {
        forall j | 0 <= j < |s[1..]| ensures s[1..][j] != s[0] { assert s[1..][j] == s[j + 1]; }
      }
      assert s[0] !in t;
      var h := if p(s[0]) then [s[0]] else [];
      assert Filter(s, p) == h + t;
      forall i, j | 0 <= i < j < |h + t| ensures (h + t)[i] != (h + t)[j] {
        if i < |h| { assert (h + t)[j] == t[j - 1]; assert t[j - 1] in t; }
      }
    }
  }

  /** "`x`'s key is selected", as a mask on elements. */
  function KeySelected<T, K>(key: T -> K, sel: K -> bool): T -> bool {
    (x: T) => sel(key(x))
  }

  /** Summing the groups of the selected keys is summing the elements whose
      key is selected, when those keys are listed once each. */
  lemma {:induction false} SumGroupsSelected<T(!new), K>(s: seq<T>, key: T -> K, ks: seq<K>, sel: K -> bool, f: T -> real)
    requires NoDuplicates(ks)
    requires forall j :: 0 <= j < |ks| ==> sel(ks[j])
    requires forall i :: 0 <= i < |s| && sel(key(s[i])) ==> key(s[i]) in ks
    ensures SumGroups(s, key, ks, f) == Sum(Filter(s, KeySelected(key, sel)), f)
  {
    var p := KeySelected(key, sel);
    if s == [] {
      SumGroupsOfEmpty(key, ks, f);
    } else {
      SumGroupsCons(s, key, ks, f);
      SumGroupsSelected(s[1..], key, ks, sel, f);
      var t := Filter(s[1..], p);
      if p(s[0]) {
        SumGroupsSingle(s[0], key, ks, f);
        assert Filter(s, p) == [s[0]] + t;
        SumConcat([s[0]], t, f);
        assert Sum([s[0]], f) == f(s[0]) + Sum([], f);
      } else {
        assert key(s[0]) !in ks;
        GroupSumsZero(s[0], key, ks, f);
        assert Filter(s, p) == t;
      }
    }
  }

  /** A group table: each key with its group's total, in key order. */
  function GroupTotals<T, K(==)>(s: seq<T>, key: T -> K, keys: seq<K>, f: T -> real): (r: seq<(K, real)>)
    ensures |r| == |keys|
    ensures forall j :: 0 <= j < |keys| ==> r[j] == (keys[j], GroupSum(s, key, keys[j], f))
  {
    if keys == [] then [] else [(keys[0], GroupSum(s, key, keys[0], f))] + GroupTotals(s, key, keys[1..], f)
  }

  function Total<K>(e: (K, real)): real { e.1 }

  function EntrySelected<K>(sel: K -> bool): ((K, real)) -> bool {
    (e: (K, real)) => sel(e.0)
  }

  /** Grouping by every key that occurs, then adding up the totals of the
      selected keys' groups, is adding up the selected elements. */
  lemma SumSelectedGroups<T(!new), K(!new)>(s: seq<T>, key: T -> K, sel: K -> bool, f: T -> real)
    ensures Sum(Filter(GroupTotals(s, key, Distinct(MapSeq(s, key)), f), EntrySelected(sel)), Total)
      == Sum(Filter(s, KeySelected(key, sel)), f)
  {
    var keys := Distinct(MapSeq(s, key));
    var ks := Filter(keys, sel);
    SumSelectedTotals(s, key, keys, sel, f);
    FilterNoDuplicates(keys, sel);
    FilterMultiset(keys, sel);
    forall i | 0 <= i < |s| && sel(key(s[i])) ensures key(s[i]) in ks {
      assert key(s[i]) in MapSeq(s, key);
    }
    SumGroupsSelected(s, key, ks, sel, f);
  }

  /** Selecting rows of a group table by key and adding their totals is
      summing the groups of the selected keys. */
  lemma {:induction false} SumSelectedTotals<T, K(!new)>(s: seq<T>, key: T -> K, keys: seq<K>, sel: K -> bool, f: T -> real)
    ensures Sum(Filter(GroupTotals(s, key, keys, f), EntrySelected(sel)), Total) == SumGroups(s, key, Filter(keys, sel), f)
  {
    if keys != [] {
      var g := GroupTotals(s, key, keys, f);
      assert g[1..] == GroupTotals(s, key, keys[1..], f);
      SumSelectedTotals(s, key, keys[1..], sel, f);
      var rest := Filter(g[1..], EntrySelected(sel));
      if sel(keys[0]) {
        assert Filter(g, EntrySelected(sel)) == [g[0]] + rest;
        SumConcat([g[0]], rest, Total);
        assert [g[0]][1..] == [];
        assert Sum([g[0]], Total) == g[0].1 + Sum([g[0]][1..], Total);
        assert Filter(keys, sel) == [keys[0]] + Filter(keys[1..], sel);
        assert (Filter(keys, sel))[1..] == Filter(keys[1..], sel);
      } else {
        assert Filter(g, EntrySelected(sel)) == rest;
        assert Filter(keys, sel) == Filter(keys[1..], sel);
      }
    }
  }

  /** `unique()` / the groupby keys: each element once, in order of first appearance. */
  function Distinct<T(==,!new)>(s: seq<T>): (r: seq<T>)
    ensures forall x :: x in r <==> x in s
    ensures NoDuplicates(r)
  {
    if s == [] then []
    else
      var d := Distinct(s[..|s| - 1]);
      assert forall x :: x in s <==> x in s[..|s| - 1] || x == s[|s| - 1] by {
        assert s == s[..|s| - 1] + [s[|s| - 1]];
      }
      if s[|s| - 1] in d then d else d + [s[|s| - 1]]
  }

  /** `head(n)`: the first `n` elements, or for a negative `n` all but the last `-n`. */
  function Head<T>(s: seq<T>, n: int): (r: seq<T>)
    ensures n >= 0 ==> |r| == if n < |s| then n else |s|
    ensures n < 0 ==> |r| == if |s| + n > 0 then |s| + n else 0
    ensures r == s[..|r|]
  {
    if n >= 0 then (if n < |s| then s[..n] else s)
    else (if |s| + n > 0 then s[..|s| + n] else [])
  }

  /** A sort key: `Missing` is NaN/NaT, which `sort_values` puts last. */
  datatype SortKey = Missing | Present(parts: seq<int>)

  /** `a` may precede `b` in a descending sort with NaN last. */
  predicate KeyGeq(a: SortKey, b: SortKey) {
    b.Missing? || (a.Present? && LexGeq(a.parts, b.parts))
  }

  lemma KeyGeqTotal(a: SortKey, b: SortKey)
    ensures KeyGeq(a, b) || KeyGeq(b, a)
  {
    if a.Present? && b.Present? { LexGeqTotal(a.parts, b.parts); }
  }

  lemma KeyGeqTransitive(a: SortKey, b: SortKey, c: SortKey)
    requires KeyGeq(a, b) && KeyGeq(b, c)
    ensures KeyGeq(a, c)
  {
    if c.Present? { LexGeqTransitive(a.parts, b.parts, c.parts); }
  }

  predicate SortedDesc<T>(s: seq<T>, key: T -> SortKey) {
    forall i, j :: 0 <= i < j < |s| ==> KeyGeq(key(s[i]), key(s[j]))
  }

  function InsertDesc<T(==)>(x: T, s: seq<T>, key: T -> SortKey): (r: seq<T>)
    requires SortedDesc(s, key)
    ensures multiset(r) == multiset(s) + multiset{x}
    ensures |r| == |s| + 1
    ensures SortedDesc(r, key)
  {
    if s == [] || KeyGeq(key(x), key(s[0])) then
      InsertFront(x, s, key);
      [x] + s
    else
      KeyGeqTotal(key(x), key(s[0]));
      assert s == [s[0]] + s[1..];
      var t := InsertDesc(x, s[1..], key);
      InsertBehind(x, s, t, key);
      [s[0]] + t
  }

  /** An element no smaller than the head of a sorted sequence may go first. */
  lemma InsertFront<T>(x: T, s: seq<T>, key: T -> SortKey)
    requires SortedDesc(s, key) && (s == [] || KeyGeq(key(x), key(s[0])))
    ensures SortedDesc([x] + s, key)
  {
    var r := [x] + s;
    forall i, j | 0 <= i < j < |r| ensures KeyGeq(key(r[i]), key(r[j])) {
      if i == 0 && j > 1 { KeyGeqTransitive(key(x), key(s[0]), key(s[j - 1])); }
    }
  }

  /** The head of a sorted sequence stays first when a smaller element is
      inserted into its tail. */
  lemma InsertBehind<T>(x: T, s: seq<T>, t: seq<T>, key: T -> SortKey)
    requires SortedDesc(s, key) && s != [] && KeyGeq(key(s[0]), key(x))
    requires multiset(t) == multiset(s[1..]) + multiset{x} && SortedDesc(t, key)
    ensures SortedDesc([s[0]] + t, key)
  {
    var r := [s[0]] + t;
    forall j | 0 <= j < |t| ensures KeyGeq(key(s[0]), key(t[j])) {
      assert t[j] in multiset(t);
      if t[j] != x {
        assert t[j] in multiset(s[1..]);
        var k :| 0 <= k < |s[1..]| && s[1..][k] == t[j];
        assert s[k + 1] == t[j];
      }
    }
    forall i, j | 0 <= i < j < |r| ensures KeyGeq(key(r[i]), key(r[j])) {
      if i > 0 { assert r[i] == t[i - 1] && r[j] == t[j - 1]; }
      else { assert r[j] == t[j - 1]; }
    }
  }

  /** `sort_values(key, ascending=False)`: a permutation ordered by
      non-increasing key, missing keys last. The order among equal keys is
      not promised by the source either. */
  function SortDescBy<T(==)>(s: seq<T>, key: T -> SortKey): (r: seq<T>)
    ensures multiset(r) == multiset(s)
    ensures |r| == |s|
    ensures SortedDesc(r, key)
  {
    if s == [] then []
    else
      assert s == [s[0]] + s[1..];
      InsertDesc(s[0], SortDescBy(s[1..], key), key)
  }

  /** Two elements whose keys are strictly ordered come out in key order,
      whichever way they went in. */
  lemma SortTwo<T>(x: T, y: T, key: T -> SortKey)
    requires KeyGeq(key(x), key(y)) && !KeyGeq(key(y), key(x))
    ensures SortDescBy([x, y], key) == [x, y]
    ensures SortDescBy([y, x], key) == [x, y]
  {
    assert [x, y][1..] == [y] && [y, x][1..] == [x];
    assert [y][1..] == [] && [x][1..] == [];
    assert SortDescBy([y], key) == [y];
    assert SortDescBy([x], key) == [x];
    assert InsertDesc(y, [], key) == [y];
  }

  lemma MultisetSameElements<T>(a: seq<T>, b: seq<T>)
    requires multiset(a) == multiset(b)
    ensures forall x :: x in a <==> x in b
  {
    forall x ensures x in a <==> x in b {
      assert x in a <==> x in multiset(a);
      assert x in b <==> x in multiset(b);
    }
  }

  lemma PermutationKeepsNoDuplicates<T>(a: seq<T>, b: seq<T>)
    requires multiset(a) == multiset(b) && NoDuplicates(a)
    ensures NoDuplicates(b)
  {
    forall i, j | 0 <= i < j < |b| ensures b[i] != b[j] {
      if b[i] == b[j] {
        assert multiset(b)[b[i]] >= 2 by {
          assert b == b[..j] + [b[j]] + b[j + 1..];
          assert b[i] in b[..j];
        }
        OccursOnceWithoutDuplicates(a, b[i]);
        assert false;
      }
    }
  }

  lemma {:induction false} OccursOnceWithoutDuplicates<T>(s: seq<T>, x: T)
    requires NoDuplicates(s)
    ensures multiset(s)[x] <= 1
  {
    if s != [] {
      assert s == [s[0]] + s[1..];
      OccursOnceWithoutDuplicates(s[1..], x);
      if s[0] == x { assert x !in s[1..]; }
    }
  }
}
