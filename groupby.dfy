/** Group-by over the launch table: pick a key column, list the key values a
    grouping produces, and reduce each group to one value. A grouped view is
    a sequence of (key, value) entries, one per key. */
module GroupBy {
  import opened Seqs
  import opened Launches

  datatype Entry<K, V> = Entry(key: K, value: V)

  /** The key column of the table, row by row. */
  function Column<K>(rs: seq<LaunchRecord>, key: LaunchRecord -> K): (c: seq<K>)
    ensures |c| == |rs|
    ensures forall i :: 0 <= i < |rs| ==> c[i] == key(rs[i])
  {
    seq(|rs|, i requires 0 <= i < |rs| => key(rs[i]))
  }

  /** The row mask `key == k`. */
  function KeyIs<K(==)>(key: LaunchRecord -> K, k: K): LaunchRecord -> bool {
    (r: LaunchRecord) => key(r) == k
  }

  /** The rows whose key is `k`: one group. */
  function Select<K(==)>(rs: seq<LaunchRecord>, key: LaunchRecord -> K, k: K): seq<LaunchRecord> {
    Filter(rs, KeyIs(key, k))
  }

  /** A row is in group `k` exactly when it is in the table with key `k`. */
  lemma SelectMember<K>(rs: seq<LaunchRecord>, key: LaunchRecord -> K, k: K, r: LaunchRecord)
    ensures r in Select(rs, key, k) <==> r in rs && key(r) == k
  {
  }

  /** A key that occurs in the column has a non-empty group; any other key
      has an empty one. */
  lemma SelectEmptyIff<K>(rs: seq<LaunchRecord>, key: LaunchRecord -> K, k: K)
    ensures Select(rs, key, k) == [] <==> k !in Column(rs, key)
  {
    var g := Select(rs, key, k);
    if k in Column(rs, key) {
      var i :| 0 <= i < |rs| && Column(rs, key)[i] == k;
      assert rs[i] in g;
    }
  }

  /** A group of the table with one row put in front. */
  lemma SelectCons<K>(r: LaunchRecord, rs: seq<LaunchRecord>, key: LaunchRecord -> K, k: K)
    ensures Select([r] + rs, key, k) == (if key(r) == k then [r] else []) + Select(rs, key, k)
  {
    assert ([r] + rs)[0] == r && ([r] + rs)[1..] == rs;
  }

  /** Reduce each group to the sum of the weight `w` over its rows:
      `groupby(key)[col].sum()` with w = ClassValue, `.count()` with w = One. */
  function GroupTotal<K(==)>(rs: seq<LaunchRecord>, key: LaunchRecord -> K, keys: seq<K>,
                             w: LaunchRecord -> nat): (es: seq<Entry<K, nat>>)
    ensures |es| == |keys|
    ensures forall i :: 0 <= i < |keys| ==> es[i].key == keys[i]
  {
    if keys == [] then []
    else [Entry(keys[0], Total(Select(rs, key, keys[0]), w))] + GroupTotal(rs, key, keys[1..], w)
  }

  /** Reduce each group to the mean of its `class` column: `groupby(key)['class'].mean()`.
      Every listed key must occur, so no group is empty. */
  function GroupMean<K(==)>(rs: seq<LaunchRecord>, key: LaunchRecord -> K, keys: seq<K>): (es: seq<Entry<K, real>>)
    requires forall k :: k in keys ==> k in Column(rs, key)
    ensures |es| == |keys|
    ensures forall i :: 0 <= i < |keys| ==> es[i].key == keys[i]
  {
    if keys == [] then []
    else
      var g := Select(rs, key, keys[0]);
      SelectEmptyIff(rs, key, keys[0]);
      [Entry(keys[0], Total(g, ClassValue) as real / |g| as real)] + GroupMean(rs, key, keys[1..])
  }

  /** Sum of the values of a grouped view. */
  function SumValues<K>(es: seq<Entry<K, nat>>): nat {
    if es == [] then 0 else es[0].value + SumValues(es[1..])
  }

  function Keys<K, V>(es: seq<Entry<K, V>>): (ks: seq<K>)
    ensures |ks| == |es|
    ensures forall i :: 0 <= i < |es| ==> ks[i] == es[i].key
  {
    seq(|es|, i requires 0 <= i < |es| => es[i].key)
  }

  /** Entry `i` of a summed view holds key `keys[i]` and the total over its group. */
  lemma {:induction false} GroupTotalAt<K>(rs: seq<LaunchRecord>, key: LaunchRecord -> K, keys: seq<K>,
                                               w: LaunchRecord -> nat)
    ensures |GroupTotal(rs, key, keys, w)| == |keys|
    ensures forall i :: 0 <= i < |keys| ==>
              GroupTotal(rs, key, keys, w)[i] == Entry(keys[i], Total(Select(rs, key, keys[i]), w))
  {
    if keys != [] {
      GroupTotalAt(rs, key, keys[1..], w);
    }
  }

  /** Entry `i` of a mean view holds key `keys[i]` and the success rate of a
      non-empty group, a value in [0, 1]. */
  lemma {:induction false} GroupMeanAt<K>(rs: seq<LaunchRecord>, key: LaunchRecord -> K, keys: seq<K>)
    requires forall k :: k in keys ==> k in Column(rs, key)
    ensures |GroupMean(rs, key, keys)| == |keys|
    ensures forall i :: 0 <= i < |keys| ==>
              var g := Select(rs, key, keys[i]);
              && |g| > 0
              && GroupMean(rs, key, keys)[i] == Entry(keys[i], Successes(g) as real / |g| as real)
              && 0.0 <= GroupMean(rs, key, keys)[i].value <= 1.0
  {
    if keys != [] {
      GroupMeanAt(rs, key, keys[1..]);
      forall i | 0 <= i < |keys|
        ensures var g := Select(rs, key, keys[i]);
                && |g| > 0
                && GroupMean(rs, key, keys)[i] == Entry(keys[i], Successes(g) as real / |g| as real)
                && 0.0 <= GroupMean(rs, key, keys)[i].value <= 1.0
      {
        var g := Select(rs, key, keys[i]);
        SelectEmptyIff(rs, key, keys[i]);
        TotalClassIsSuccesses(g);
        RateInUnitInterval(Successes(g), |g|);
        if i > 0 {
          assert GroupMean(rs, key, keys)[i] == GroupMean(rs, key, keys[1..])[i - 1];
        }
      }
    }
  }

  lemma RateInUnitInterval(a: nat, b: nat)
    requires 0 < b && a <= b
    ensures 0.0 <= a as real / b as real <= 1.0
  {
  }

  /** Adding one row to the table adds its weight to exactly one entry of a
      summed view when its key is listed (keys listed once each), and to none
      otherwise. */
  lemma {:induction false} GroupTotalCons<K>(r: LaunchRecord, rs: seq<LaunchRecord>, key: LaunchRecord -> K,
                                                 keys: seq<K>, w: LaunchRecord -> nat)
    requires NoDup(keys)
    ensures SumValues(GroupTotal([r] + rs, key, keys, w))
         == SumValues(GroupTotal(rs, key, keys, w)) + (if key(r) in keys then w(r) else 0)
  {
    if keys != [] {
      assert NoDup(keys[1..]);
      GroupTotalCons(r, rs, key, keys[1..], w);
      SelectCons(r, rs, key, keys[0]);
      if key(r) == keys[0] {
        TotalCons(r, Select(rs, key, keys[0]), w);
        assert key(r) !in keys[1..];
      } else {
        assert [] + Select(rs, key, keys[0]) == Select(rs, key, keys[0]);
      }
      assert key(r) in keys <==> key(r) == keys[0] || key(r) in keys[1..];
    }
  }

  /** Grouping an empty table gives all-zero entries. */
  lemma {:induction false} GroupTotalEmpty<K>(key: LaunchRecord -> K, keys: seq<K>, w: LaunchRecord -> nat)
    ensures SumValues(GroupTotal([], key, keys, w)) == 0
  {
    if keys != [] {
      GroupTotalEmpty(key, keys[1..], w);
    }
  }

  /** Conservation: when every row's key is listed exactly once, the entries
      of a summed view add up to the total over the whole table. */
  lemma {:induction false} GroupTotalConserves<K>(rs: seq<LaunchRecord>, key: LaunchRecord -> K,
                                                      keys: seq<K>, w: LaunchRecord -> nat)
    requires NoDup(keys)
    requires forall i :: 0 <= i < |rs| ==> key(rs[i]) in keys
    ensures SumValues(GroupTotal(rs, key, keys, w)) == Total(rs, w)
  {
    if rs == [] {
      GroupTotalEmpty(key, keys, w);
    } else {
      assert rs == [rs[0]] + rs[1..];
      GroupTotalConserves(rs[1..], key, keys, w);
      GroupTotalCons(rs[0], rs[1..], key, keys, w);
    }
  }
}
