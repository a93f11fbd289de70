/**
 * Grouping a list by a key, as the source does with a dict (or `defaultdict(list)`) filled in a
 * loop: keys in first-seen order (Python dicts keep insertion order), each group holding its
 * members in list order. Also sums and means of `real` values, for the ledgers.
 */
module Grouping {

  /** `[f(x) for x in xs]`. */
  function Project<T, U>(xs: seq<T>, f: T -> U): (ys: seq<U>)
    ensures |ys| == |xs|
    ensures forall i :: 0 <= i < |xs| ==> ys[i] == f(xs[i])
  {
    if xs == [] then [] else Project(xs[..|xs| - 1], f) + [f(xs[|xs| - 1])]
  }

  /** `[x for x in xs if key(x) == k]`. */
  function Where<T, K(==)>(xs: seq<T>, key: T -> K, k: K): seq<T> {
    if xs == [] then []
    else
      var last := xs[|xs| - 1];
      Where(xs[..|xs| - 1], key, k) + (if key(last) == k then [last] else [])
  }

  /** The distinct elements of `ks` in the order of their first occurrence. */
  function Dedup<K(==)>(ks: seq<K>): (ds: seq<K>)
    ensures forall i :: 0 <= i < |ks| ==> ks[i] in ds
    ensures forall i :: 0 <= i < |ds| ==> ds[i] in ks
    ensures forall i, j :: 0 <= i < j < |ds| ==> ds[i] != ds[j]
  {
    if ks == [] then []
    else
      var ds := Dedup(ks[..|ks| - 1]);
      var last := ks[|ks| - 1];
      assert forall i :: 0 <= i < |ks| - 1 ==> ks[i] == ks[..|ks| - 1][i];
      if last in ds then ds else ds + [last]
  }

  /** The keys of a grouping: `list(groups.keys())` for a dict filled in list order. */
  function GroupKeys<T, K(==)>(xs: seq<T>, key: T -> K): seq<K> {
    Dedup(Project(xs, key))
  }

  function SumReal(xs: seq<real>): real {
    if xs == [] then 0.0 else SumReal(xs[..|xs| - 1]) + xs[|xs| - 1]
  }

  /** The arithmetic mean, and 0 for no values. */
  function Mean(xs: seq<real>): real {
    if xs == [] then 0.0 else SumReal(xs) / (|xs| as real)
  }

  /** A non-empty list's mean times its length `n` is its sum. */
  lemma MeanTimesCount(xs: seq<real>, n: int)
    requires xs != [] && n == |xs|
    ensures Mean(xs) * (n as real) == SumReal(xs)
  {
    var r := n as real;
    assert SumReal(xs) / r * r == SumReal(xs);
  }

  /** The running average after an `n`-th value `x`, given the average `avg` of the first `n - 1`. */
  function RunningMean(avg: real, n: int, x: real): real
    requires n >= 1
  {
    (avg * ((n - 1) as real) + x) / (n as real)
  }

  /** Sum over the keys `ks` of the size of each key's group. */
  function GroupSizes<T, K(==)>(ks: seq<K>, xs: seq<T>, key: T -> K): int {
    if ks == [] then 0 else GroupSizes(ks[..|ks| - 1], xs, key) + |Where(xs, key, ks[|ks| - 1])|
  }

  /** Sum over the keys `ks` of the total weight of each key's group. */
  function GroupTotals<T, K(==)>(ks: seq<K>, xs: seq<T>, key: T -> K, w: T -> real): real {
    if ks == [] then 0.0
    else GroupTotals(ks[..|ks| - 1], xs, key, w) + SumReal(Project(Where(xs, key, ks[|ks| - 1]), w))
  }

  /** A prefix one longer is the prefix followed by the next element. */
  lemma PrefixSnoc<T>(xs: seq<T>, i: nat)
    requires i < |xs|
    ensures xs[..i + 1] == xs[..i] + [xs[i]]
  {
  }

  lemma PrefixFull<T>(xs: seq<T>)
    ensures xs[..|xs|] == xs
  {
  }

  lemma PrefixOfSnoc<T>(xs: seq<T>, x: T)
    ensures (xs + [x])[..|xs|] == xs
  {
  }

  lemma SuffixSnoc<T>(xs: seq<T>, x: T, f: nat)
    requires f <= |xs|
    ensures (xs + [x])[f..] == xs[f..] + [x]
  {
  }

  lemma LastSplit<T>(xs: seq<T>)
    requires xs != []
    ensures xs == xs[..|xs| - 1] + [xs[|xs| - 1]]
  {
  }

  lemma AppendAssoc<T>(a: seq<T>, b: seq<T>, c: seq<T>)
    ensures a + (b + c) == (a + b) + c
  {
  }

  lemma WhereSnoc<T, K>(xs: seq<T>, x: T, key: T -> K, k: K)
    ensures Where(xs + [x], key, k) == Where(xs, key, k) + (if key(x) == k then [x] else [])
  {
    assert (xs + [x])[..|xs|] == xs;
  }

  lemma SumRealSnoc(xs: seq<real>, x: real)
    ensures SumReal(xs + [x]) == SumReal(xs) + x
  {
    assert (xs + [x])[..|xs|] == xs;
  }

  lemma ProjectSnoc<T, U>(xs: seq<T>, x: T, f: T -> U)
    ensures Project(xs + [x], f) == Project(xs, f) + [f(x)]
  {
  }

  /** A key that no element carries has an empty group. */
  lemma {:induction false} WhereAbsent<T, K>(xs: seq<T>, key: T -> K, k: K)
    requires k !in Project(xs, key)
    ensures Where(xs, key, k) == []
  {
    if xs != [] {
      var init := xs[..|xs| - 1];
      assert Project(xs, key) == Project(init, key) + [key(xs[|xs| - 1])];
      WhereAbsent(init, key, k);
    }
  }

  /** An element is found in the group of its own key. */
  lemma {:induction false} WhereMember<T, K>(xs: seq<T>, i: nat, key: T -> K)
    requires i < |xs|
    ensures exists t :: 0 <= t < |Where(xs, key, key(xs[i]))| && Where(xs, key, key(xs[i]))[t] == xs[i]
  {
    var init := xs[..|xs| - 1];
    var x := xs[|xs| - 1];
    assert xs == init + [x];
    WhereSnoc(init, x, key, key(xs[i]));
    if i < |xs| - 1 {
      WhereMember(init, i, key);
      assert init[i] == xs[i];
      var w0 := Where(init, key, key(xs[i]));
      var t :| 0 <= t < |w0| && w0[t] == xs[i];
      assert Where(xs, key, key(xs[i]))[t] == xs[i];
    } else {
      var w := Where(xs, key, key(xs[i]));
      assert w[|w| - 1] == xs[i];
    }
  }

  /** A value occurs among the projected members of a group exactly when some element with that key projects to it. */
  lemma {:induction false} ProjectWhereMembers<T, K, U>(xs: seq<T>, key: T -> K, k: K, f: T -> U, y: U)
    ensures y in Project(Where(xs, key, k), f) <==> exists i :: 0 <= i < |xs| && key(xs[i]) == k && f(xs[i]) == y
  {
    if xs != [] {
      var init, x := xs[..|xs| - 1], xs[|xs| - 1];
      ProjectWhereMembers(init, key, k, f, y);
      var front := Project(Where(init, key, k), f);
      var all := Project(Where(xs, key, k), f);
      assert xs == init + [x];
      WhereSnoc(init, x, key, k);
      if key(x) == k {
        ProjectSnoc(Where(init, key, k), x, f);
        assert all == front + [f(x)];
      } else {
        assert all == front;
      }
      if y in all {
        if y in front {
          var i :| 0 <= i < |init| && key(init[i]) == k && f(init[i]) == y;
          assert xs[i] == init[i];
        } else {
          assert key(xs[|xs| - 1]) == k && f(xs[|xs| - 1]) == y;
        }
      }
      if exists i :: 0 <= i < |xs| && key(xs[i]) == k && f(xs[i]) == y {
        var i :| 0 <= i < |xs| && key(xs[i]) == k && f(xs[i]) == y;
        if i < |init| {
          assert key(init[i]) == k && f(init[i]) == y;
          assert y in front;
        } else {
          assert xs[i] == x;
        }
      }
    }
  }

  lemma {:induction false} WhereLength<T, K>(xs: seq<T>, key: T -> K, k: K)
    ensures |Where(xs, key, k)| <= |xs|
    ensures forall y :: y in Where(xs, key, k) ==> y in xs && key(y) == k
  {
    if xs != [] {
      WhereLength(xs[..|xs| - 1], key, k);
    }
  }

  lemma {:induction false} GroupSizesSnoc<T, K>(ks: seq<K>, xs: seq<T>, x: T, key: T -> K)
    requires forall i, j :: 0 <= i < j < |ks| ==> ks[i] != ks[j]
    ensures GroupSizes(ks, xs + [x], key) == GroupSizes(ks, xs, key) + (if key(x) in ks then 1 else 0)
  {
    if ks != [] {
      var init := ks[..|ks| - 1];
      var k := ks[|ks| - 1];
      GroupSizesSnoc(init, xs, x, key);
      WhereSnoc(xs, x, key, k);
      assert key(x) in ks <==> key(x) in init || key(x) == k;
      assert k !in init;
    }
  }

  lemma {:induction false} GroupTotalsSnoc<T, K>(ks: seq<K>, xs: seq<T>, x: T, key: T -> K, w: T -> real)
    requires forall i, j :: 0 <= i < j < |ks| ==> ks[i] != ks[j]
    ensures GroupTotals(ks, xs + [x], key, w) == GroupTotals(ks, xs, key, w) + (if key(x) in ks then w(x) else 0.0)
  {
    if ks != [] {
      var init := ks[..|ks| - 1];
      var k := ks[|ks| - 1];
      GroupTotalsSnoc(init, xs, x, key, w);
      WhereSnoc(xs, x, key, k);
      if key(x) == k {
        ProjectSnoc(Where(xs, key, k), x, w);
        SumRealSnoc(Project(Where(xs, key, k), w), w(x));
      } else {
        assert Where(xs + [x], key, k) == Where(xs, key, k);
      }
      assert key(x) in ks <==> key(x) in init || key(x) == k;
      assert k !in init;
    }
  }

  /** The groups partition the list: their sizes add up to its length. */
  lemma {:induction false} PartitionCount<T, K>(xs: seq<T>, key: T -> K)
    ensures GroupSizes(GroupKeys(xs, key), xs, key) == |xs|
  {
    if xs != [] {
      var init := xs[..|xs| - 1];
      var x := xs[|xs| - 1];
      assert xs == init + [x];
      PartitionCount(init, key);
      var ds := GroupKeys(init, key);
      assert Project(xs, key) == Project(init, key) + [key(x)];
      assert Project(xs, key)[..|xs| - 1] == Project(init, key);
      GroupSizesSnoc(ds, init, x, key);
      if key(x) !in ds {
        WhereAbsent(init, key, key(x));
        WhereSnoc(init, x, key, key(x));
        assert GroupKeys(xs, key) == ds + [key(x)];
        assert (ds + [key(x)])[..|ds|] == ds;
      }
    }
  }

  lemma SingletonTotal<T>(x: T, w: T -> real)
    ensures SumReal(Project([x], w)) == w(x)
  {
    assert Project([x], w) == [w(x)];
    assert [w(x)][..0] == [];
  }

  /** The groups partition the list: their weights add up to the list's total weight. */
  lemma {:induction false} PartitionTotal<T, K>(xs: seq<T>, key: T -> K, w: T -> real)
    ensures GroupTotals(GroupKeys(xs, key), xs, key, w) == SumReal(Project(xs, w))
  {
    if xs != [] {
      var init := xs[..|xs| - 1];
      var x := xs[|xs| - 1];
      assert xs == init + [x];
      PartitionTotal(init, key, w);
      var ds := GroupKeys(init, key);
      assert Project(xs, key) == Project(init, key) + [key(x)];
      assert Project(xs, key)[..|xs| - 1] == Project(init, key);
      GroupTotalsSnoc(ds, init, x, key, w);
      ProjectSnoc(init, x, w);
      SumRealSnoc(Project(init, w), w(x));
      if key(x) !in ds {
        NewKeyTotal(init, x, key, w);
      }
    }
  }

  lemma NewKeyTotal<T, K>(init: seq<T>, x: T, key: T -> K, w: T -> real)
    requires key(x) !in GroupKeys(init, key)
    ensures GroupKeys(init + [x], key) == GroupKeys(init, key) + [key(x)]
    ensures GroupTotals(GroupKeys(init + [x], key), init + [x], key, w)
         == GroupTotals(GroupKeys(init, key), init + [x], key, w) + w(x)
  {
    var ds := GroupKeys(init, key);
    var xs := init + [x];
    assert Project(xs, key) == Project(init, key) + [key(x)];
    assert Project(xs, key)[..|xs| - 1] == Project(init, key);
    assert xs[..|xs| - 1] == init;
    WhereAbsent(init, key, key(x));
    WhereSnoc(init, x, key, key(x));
    SingletonTotal(x, w);
    assert (ds + [key(x)])[..|ds|] == ds;
  }

  /**
   * First-seen order: whenever the `j`-th key occurs at position `p`, every earlier key
   * has already occurred before `p`.
   */
  lemma {:induction false} DedupFirstSeen<K>(ks: seq<K>, i: nat, j: nat, p: nat)
    requires i < j < |Dedup(ks)| && p < |ks| && ks[p] == Dedup(ks)[j]
    ensures Dedup(ks)[i] in ks[..p]
  {
    var init := ks[..|ks| - 1];
    var x := ks[|ks| - 1];
    var di := Dedup(init);
    assert Dedup(ks) == if x in di then di else di + [x];
    if p < |ks| - 1 {
      assert j < |di| && init[p] == Dedup(init)[j] by {
        assert ks[p] == init[p];
        assert init[p] in di;
      }
      DedupFirstSeen(init, i, j, p);
      assert init[..p] == ks[..p];
    } else if x !in di {
      assert Dedup(ks)[i] in init by {
        assert j == |di|;
        assert Dedup(ks)[i] == di[i];
      }
      assert init == ks[..p];
    } else {
      var q :| 0 <= q < |init| && init[q] == x;
      DedupFirstSeen(init, i, j, q);
      assert init[..q] <= ks[..p];
    }
  }

  /** The mean of one more value is the running average the usage counters compute. */
  lemma MeanSnoc(xs: seq<real>, x: real)
    ensures Mean(xs + [x]) == RunningMean(Mean(xs), |xs| + 1, x)
  {
    SumRealSnoc(xs, x);
    if xs != [] {
      var n := |xs| as real;
      assert Mean(xs) * n == SumReal(xs);
    }
  }

  /** The keys are exactly the values of the key function, each once. */
  lemma DedupMembers<K>(ks: seq<K>, k: K)
    ensures k in Dedup(ks) <==> k in ks
  {
    var ds := Dedup(ks);
    if k in ks {
      var i :| 0 <= i < |ks| && ks[i] == k;
    }
    if k in ds {
      var i :| 0 <= i < |ds| && ds[i] == k;
    }
  }

  /** A key is one of the group keys exactly when some element carries it, and then its group is not empty. */
  lemma GroupKeysMembers<T, K>(xs: seq<T>, key: T -> K, k: K)
    ensures k in GroupKeys(xs, key) <==> exists i :: 0 <= i < |xs| && key(xs[i]) == k
    ensures k in GroupKeys(xs, key) ==> |Where(xs, key, k)| > 0
  {
    var ps := Project(xs, key);
    DedupMembers(ps, k);
    if exists i :: 0 <= i < |xs| && key(xs[i]) == k {
      var i :| 0 <= i < |xs| && key(xs[i]) == k;
      assert ps[i] == k;
    }
    if k in ps {
      var i :| 0 <= i < |ps| && ps[i] == k;
      WhereMember(xs, i, key);
    }
  }

  /** Entering one more element's key into a map keeps its keys those of the projected list. */
  lemma ProjectKeysStep<T, K, V>(xs: seq<T>, x: T, key: T -> K, m: map<K, V>, m': map<K, V>, v: V)
    requires forall k :: k in m <==> k in Project(xs, key)
    requires m' == m[key(x) := v]
    ensures forall k :: k in m' <==> k in Project(xs + [x], key)
  {
    ProjectSnoc(xs, x, key);
    forall k ensures k in m' <==> k in Project(xs + [x], key) {
      assert k in Project(xs, key) + [key(x)] <==> k in Project(xs, key) || k == key(x);
    }
  }

  /** One more element adds its key to the keys exactly when the key is new. */
  lemma GroupKeysSnoc<T, K>(xs: seq<T>, x: T, key: T -> K)
    ensures GroupKeys(xs + [x], key)
         == if key(x) in Project(xs, key) then GroupKeys(xs, key) else GroupKeys(xs, key) + [key(x)]
  {
    var ps := Project(xs + [x], key);
    assert ps == Project(xs, key) + [key(x)];
    assert ps[..|xs|] == Project(xs, key);
  }

  /** Adding a key to a map and, when it is new, to the key list keeps the two holding the same keys. */
  lemma SameKeysStep<K, V>(order: seq<K>, groups: map<K, V>, k: K, v: V, order': seq<K>, groups': map<K, V>)
    requires forall k' :: k' in groups <==> k' in order
    requires groups' == groups[k := v]
    requires order' == if k in groups then order else order + [k]
    ensures forall k' :: k' in groups' <==> k' in order'
  {
  }

  /** One step of the grouping loop keeps the group of every key equal to its members' values. */
  lemma GroupValuesStep<T, K, V>(xs: seq<T>, x: T, xs': seq<T>, key: T -> K, val: T -> V, groups: map<K, seq<V>>, groups': map<K, seq<V>>)
    requires xs' == xs + [x]
    requires forall k :: k in groups ==> groups[k] == Project(Where(xs, key, k), val)
    requires key(x) !in groups ==> key(x) !in Project(xs, key)
    requires groups' == groups[key(x) := (if key(x) in groups then groups[key(x)] else []) + [val(x)]]
    ensures forall k :: k in groups' ==> groups'[k] == Project(Where(xs', key, k), val)
  {
    var k := key(x);
    if k !in groups {
      WhereAbsent(xs, key, k);
    }
    forall k' | k' in groups' ensures groups'[k'] == Project(Where(xs', key, k'), val) {
      WhereSnoc(xs, x, key, k');
      if k' == k {
        ProjectSnoc(Where(xs, key, k), x, val);
      }
    }
  }

  /** A key's total after one more element: its old total, plus the element's weight if the key is its own. */
  lemma WhereTotalSnoc<T, K>(xs: seq<T>, x: T, key: T -> K, w: T -> real, k: K)
    ensures SumReal(Project(Where(xs + [x], key, k), w))
         == SumReal(Project(Where(xs, key, k), w)) + (if key(x) == k then w(x) else 0.0)
  {
    WhereSnoc(xs, x, key, k);
    if key(x) == k {
      ProjectSnoc(Where(xs, key, k), x, w);
      SumRealSnoc(Project(Where(xs, key, k), w), w(x));
    } else {
      assert Where(xs + [x], key, k) == Where(xs, key, k);
    }
  }

  /** One iteration of the grouping loop takes its invariant from prefix `i` to prefix `i + 1`. */
  lemma GroupedPrefixStep<T, K, V>(xs: seq<T>, i: nat, key: T -> K, val: T -> V,
                                   order: seq<K>, groups: map<K, seq<V>>, order': seq<K>, groups': map<K, seq<V>>)
    requires i < |xs|
    requires order == GroupKeys(xs[..i], key)
    requires forall k :: k in groups <==> k in order
    requires forall k :: k in groups ==> groups[k] == Project(Where(xs[..i], key, k), val)
    requires order' == if key(xs[i]) in groups then order else order + [key(xs[i])]
    requires groups' == groups[key(xs[i]) := (if key(xs[i]) in groups then groups[key(xs[i])] else []) + [val(xs[i])]]
    ensures order' == GroupKeys(xs[..i + 1], key)
    ensures forall k :: k in groups' <==> k in order'
    ensures forall k :: k in groups' ==> groups'[k] == Project(Where(xs[..i + 1], key, k), val)
  {
    var x := xs[i];
    PrefixSnoc(xs, i);
    GroupKeysSnoc(xs[..i], x, key);
    DedupMembers(Project(xs[..i], key), key(x));
    assert key(x) in groups <==> key(x) in Project(xs[..i], key);
    SameKeysStep(order, groups, key(x), (if key(x) in groups then groups[key(x)] else []) + [val(x)], order', groups');
    GroupValuesStep(xs[..i], x, xs[..i + 1], key, val, groups, groups');
  }

  /**
   * The source's loop that fills a dict of lists:
   * `if k not in groups: groups[k] = []` then `groups[k].append(val(x))`.
   */
  method GroupBy<T, K(==), V>(xs: seq<T>, key: T -> K, val: T -> V) returns (order: seq<K>, groups: map<K, seq<V>>)
    ensures order == GroupKeys(xs, key)
    ensures forall k :: k in groups <==> k in order
    ensures forall k :: k in groups ==> groups[k] == Project(Where(xs, key, k), val)
  {
    order, groups := [], map[];
    for i := 0 to |xs|
      invariant order == GroupKeys(xs[..i], key)
      invariant forall k :: k in groups <==> k in order
      invariant forall k :: k in groups ==> groups[k] == Project(Where(xs[..i], key, k), val)
    {
      var x := xs[i];
      var k := key(x);
      ghost var order0, groups0 := order, groups;
      var prior := if k in groups then groups[k] else [];
      if k !in groups {
        order := order + [k];
      }
      groups := groups[k := prior + [val(x)]];
      GroupedPrefixStep(xs, i, key, val, order0, groups0, order, groups);
    }
    assert xs[..|xs|] == xs;
  }
}
