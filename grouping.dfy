/**
 * The bucket reductions behind the dashboard charts: `reduce` over records with an
 * accumulator array, where each record either adds its amount to the bucket `find` returns
 * for its key or pushes a new bucket; and the `sort` of date-keyed buckets by date.
 */
module Grouping {
  import opened Seqs

  /** A record reduced to its key and amount. */
  datatype Item<K> = Item(key: K, amount: int)

  /** One accumulator entry: a key and the running total of its amounts. */
  datatype Bucket<K> = Bucket(key: K, total: int)

  function Amounts<K>(items: seq<Item<K>>): (r: seq<int>)
    ensures |r| == |items| && forall i :: 0 <= i < |items| ==> r[i] == items[i].amount
  {
    seq(|items|, i requires 0 <= i < |items| => items[i].amount)
  }

  function Totals<K>(bs: seq<Bucket<K>>): (r: seq<int>)
    ensures |r| == |bs| && forall i :: 0 <= i < |bs| ==> r[i] == bs[i].total
  {
    seq(|bs|, i requires 0 <= i < |bs| => bs[i].total)
  }

  predicate DistinctKeys<K(==)>(bs: seq<Bucket<K>>)
  {
    forall i, j :: 0 <= i < j < |bs| ==> bs[i].key != bs[j].key
  }

  /** Some bucket carries key `k`. */
  predicate HasBucket<K(==)>(bs: seq<Bucket<K>>, k: K)
  {
    exists i :: 0 <= i < |bs| && bs[i].key == k
  }

  /** Some record carries key `k`. */
  predicate HasItem<K(==)>(items: seq<Item<K>>, k: K)
  {
    exists i :: 0 <= i < |items| && items[i].key == k
  }

  /** One step of the reduce: add to the first bucket with the key, or push a new bucket. */
  function AddTo<K(==)>(acc: seq<Bucket<K>>, k: K, v: int): seq<Bucket<K>>
  {
    if acc == [] then [Bucket(k, v)]
    else if acc[0].key == k then [Bucket(k, acc[0].total + v)] + acc[1..]
    else [acc[0]] + AddTo(acc[1..], k, v)
  }

  /** The whole reduce, record by record from an empty accumulator. */
  function GroupTotals<K(==)>(items: seq<Item<K>>): seq<Bucket<K>>
  {
    if items == [] then []
    else
      var last := items[|items| - 1];
      AddTo(GroupTotals(items[..|items| - 1]), last.key, last.amount)
  }

  /** The amounts of the records with key `k`, summed. */
  function KeySum<K(==)>(items: seq<Item<K>>, k: K): int
  {
    if items == [] then 0
    else
      var last := items[|items| - 1];
      KeySum(items[..|items| - 1], k) + (if last.key == k then last.amount else 0)
  }

  /** The total of the first bucket with key `k`, 0 when there is none. */
  function BucketTotal<K(==)>(bs: seq<Bucket<K>>, k: K): int
  {
    if bs == [] then 0
    else if bs[0].key == k then bs[0].total
    else BucketTotal(bs[1..], k)
  }

  /** What `find` returns decides the step: the found bucket is updated in place. */
  lemma {:induction false} AddToFound<K>(acc: seq<Bucket<K>>, k: K, v: int, j: int)
    requires 0 <= j < |acc| && acc[j].key == k
    requires forall t :: 0 <= t < j ==> acc[t].key != k
    ensures AddTo(acc, k, v) == acc[j := Bucket(k, acc[j].total + v)]
  {
    if j > 0 {
      AddToFound(acc[1..], k, v, j - 1);
    }
  }

  /** When `find` finds nothing the new bucket goes last. */
  lemma {:induction false} AddToMissing<K>(acc: seq<Bucket<K>>, k: K, v: int)
    requires forall t :: 0 <= t < |acc| ==> acc[t].key != k
    ensures AddTo(acc, k, v) == acc + [Bucket(k, v)]
  {
    if acc != [] {
      AddToMissing(acc[1..], k, v);
    }
  }

  /**
   * The reduce as the code runs it: for each record, a linear `find` over the accumulator,
   * then `existing.total += amount` or `acc.push`.
   */
  method Accumulate<K(==)>(items: seq<Item<K>>) returns (acc: seq<Bucket<K>>)
    ensures acc == GroupTotals(items)
  {
    acc := [];
    var i := 0;
    while i < |items|
      invariant 0 <= i <= |items|
      invariant acc == GroupTotals(items[..i])
    {
      var item := items[i];
      var j := 0;
      while j < |acc| && acc[j].key != item.key
        invariant 0 <= j <= |acc|
        invariant forall t :: 0 <= t < j ==> acc[t].key != item.key
      {
        j := j + 1;
      }
      assert items[..i + 1][..i] == items[..i];
      if j < |acc| {
        AddToFound(acc, item.key, item.amount, j);
        acc := acc[j := Bucket(item.key, acc[j].total + item.amount)];
      } else {
        AddToMissing(acc, item.key, item.amount);
        acc := acc + [Bucket(item.key, item.amount)];
      }
      i := i + 1;
    }
    assert items[..i] == items;
  }

  lemma {:induction false} AddToDistinct<K>(acc: seq<Bucket<K>>, k: K, v: int)
    requires DistinctKeys(acc)
    ensures DistinctKeys(AddTo(acc, k, v))
  {
    if acc != [] && acc[0].key != k {
      AddToDistinct(acc[1..], k, v);
      var rest := AddTo(acc[1..], k, v);
      forall t | 0 <= t < |rest| ensures rest[t].key != acc[0].key {
        AddToHas(acc[1..], k, v, rest[t].key);
        assert HasBucket(rest, rest[t].key);
        if rest[t].key != k {
          var i :| 0 <= i < |acc[1..]| && acc[1..][i].key == rest[t].key;
          assert acc[i + 1].key == rest[t].key;
        }
      }
    }
  }

  lemma {:induction false} AddToHas<K>(acc: seq<Bucket<K>>, k: K, v: int, k': K)
    ensures HasBucket(AddTo(acc, k, v), k') <==> HasBucket(acc, k') || k' == k
  {
    var r := AddTo(acc, k, v);
    if acc == [] {
      assert r[0].key == k;
    } else if acc[0].key == k {
      if HasBucket(acc, k') {
        var i :| 0 <= i < |acc| && acc[i].key == k';
        assert r[i].key == k';
      }
      if HasBucket(r, k') {
        var i :| 0 <= i < |r| && r[i].key == k';
        assert acc[i].key == k';
      }
      assert r[0].key == k;
    } else {
      AddToHas(acc[1..], k, v, k');
      var rest := AddTo(acc[1..], k, v);
      assert r == [acc[0]] + rest;
      if HasBucket(r, k') {
        var t :| 0 <= t < |r| && r[t].key == k';
        if t == 0 {
          assert acc[0].key == k';
        } else {
          assert rest[t - 1].key == k';
          assert HasBucket(rest, k');
          if k' != k {
            var i :| 0 <= i < |acc[1..]| && acc[1..][i].key == k';
            assert acc[i + 1].key == k';
          }
        }
      }
      if HasBucket(acc, k') || k' == k {
        if k' == acc[0].key {
          assert r[0].key == k';
        } else {
          if k' != k {
            var i :| 0 <= i < |acc| && acc[i].key == k';
            assert acc[1..][i - 1].key == k';
            assert HasBucket(acc[1..], k');
          }
          assert HasBucket(rest, k');
          var t :| 0 <= t < |rest| && rest[t].key == k';
          assert r[t + 1].key == k';
        }
      }
    }
  }

  lemma {:induction false} AddToBucketTotal<K>(acc: seq<Bucket<K>>, k: K, v: int, k': K)
    ensures BucketTotal(AddTo(acc, k, v), k') == BucketTotal(acc, k') + (if k' == k then v else 0)
  {
    if acc != [] && acc[0].key != k {
      AddToBucketTotal(acc[1..], k, v, k');
    }
  }

  lemma {:induction false} AddToSum<K>(acc: seq<Bucket<K>>, k: K, v: int)
    ensures Sum(Totals(AddTo(acc, k, v))) == Sum(Totals(acc)) + v
  {
    var r := AddTo(acc, k, v);
    if acc == [] {
      assert Totals(r) == [v];
    } else if acc[0].key == k {
      assert Totals(r) == [acc[0].total + v] + Totals(acc[1..]);
      assert Totals(acc) == [acc[0].total] + Totals(acc[1..]);
    } else {
      AddToSum(acc[1..], k, v);
      assert Totals(r) == [acc[0].total] + Totals(AddTo(acc[1..], k, v));
      assert Totals(acc) == [acc[0].total] + Totals(acc[1..]);
    }
  }

  /**
   * The buckets of a reduce: one per distinct key of the records and no other; each bucket's
   * total is the sum of its key's amounts; and the totals add up to the sum of all amounts.
   */
  lemma {:induction false} GroupTotalsSpec<K>(items: seq<Item<K>>)
    ensures DistinctKeys(GroupTotals(items))
    ensures forall k :: HasBucket(GroupTotals(items), k) <==> HasItem(items, k)
    ensures forall k :: BucketTotal(GroupTotals(items), k) == KeySum(items, k)
    ensures Sum(Totals(GroupTotals(items))) == Sum(Amounts(items))
  {
    if items != [] {
      var init := items[..|items| - 1];
      var last := items[|items| - 1];
      GroupTotalsSpec(init);
      var gi := GroupTotals(init);
      AddToDistinct(gi, last.key, last.amount);
      AddToSum(gi, last.key, last.amount);
      forall k ensures HasBucket(GroupTotals(items), k) <==> HasBucket(gi, k) || k == last.key {
        AddToHas(gi, last.key, last.amount, k);
      }
      forall k ensures BucketTotal(GroupTotals(items), k) == KeySum(items, k) {
        AddToBucketTotal(gi, last.key, last.amount, k);
      }
      forall k ensures HasItem(items, k) <==> HasItem(init, k) || k == last.key {
        if HasItem(init, k) {
          var i :| 0 <= i < |init| && init[i].key == k;
          assert items[i].key == k;
        }
        if HasItem(items, k) && k != last.key {
          var i :| 0 <= i < |items| && items[i].key == k;
          assert init[i].key == k;
        }
      }
      assert Amounts(items) == Amounts(init) + [last.amount];
      SumAppend(Amounts(init), [last.amount]);
    }
  }

  /** A bucket's total is the total found under its key. */
  lemma {:induction false} BucketTotalOfMember<K>(bs: seq<Bucket<K>>, i: int)
    requires DistinctKeys(bs) && 0 <= i < |bs|
    ensures BucketTotal(bs, bs[i].key) == bs[i].total
  {
    if i > 0 {
      BucketTotalOfMember(bs[1..], i - 1);
    }
  }

  /** Position of the first record with key `k`. */
  function FirstItem<K(==)>(items: seq<Item<K>>, k: K): (r: int)
    requires HasItem(items, k)
    ensures 0 <= r < |items| && items[r].key == k
    ensures forall t :: 0 <= t < r ==> items[t].key != k
  {
    if items[0].key == k then 0
    else
      var i :| 0 <= i < |items| && items[i].key == k;
      assert items[1..][i - 1].key == k;
      FirstItem(items[1..], k) + 1
  }

  /** Buckets come in the order their keys first appear among the records. */
  lemma {:induction false} GroupOrder<K>(items: seq<Item<K>>, i: int, j: int)
    requires 0 <= i < j < |GroupTotals(items)|
    ensures HasItem(items, GroupTotals(items)[i].key) && HasItem(items, GroupTotals(items)[j].key)
    ensures FirstItem(items, GroupTotals(items)[i].key) < FirstItem(items, GroupTotals(items)[j].key)
    decreases |items|, 1
  {
    var g := GroupTotals(items);
    var init := items[..|items| - 1];
    var last := items[|items| - 1];
    var gi := GroupTotals(init);
    if HasBucket(gi, last.key) {
      var t :| 0 <= t < |gi| && gi[t].key == last.key;
      var f := FirstIndexOf(gi, last.key, t);
      AddToFound(gi, last.key, last.amount, f);
      GroupOrderKept(items, i, j);
    } else {
      forall t | 0 <= t < |gi| ensures gi[t].key != last.key {
        if gi[t].key == last.key {
          assert HasBucket(gi, last.key);
        }
      }
      AddToMissing(gi, last.key, last.amount);
      if j < |gi| {
        GroupOrderKept(items, i, j);
      } else {
        GroupOrderNewKey(items, i);
      }
    }
  }

  /** Two buckets already there before the last record keep their relative order. */
  lemma {:induction false} GroupOrderKept<K>(items: seq<Item<K>>, i: int, j: int)
    requires items != []
    requires 0 <= i < j < |GroupTotals(items[..|items| - 1])| && j < |GroupTotals(items)|
    requires GroupTotals(items)[i].key == GroupTotals(items[..|items| - 1])[i].key
    requires GroupTotals(items)[j].key == GroupTotals(items[..|items| - 1])[j].key
    ensures HasItem(items, GroupTotals(items)[i].key) && HasItem(items, GroupTotals(items)[j].key)
    ensures FirstItem(items, GroupTotals(items)[i].key) < FirstItem(items, GroupTotals(items)[j].key)
    decreases |items|, 0
  {
    var init := items[..|items| - 1];
    var gi := GroupTotals(init);
    GroupOrder(init, i, j);
    FirstItemOfPrefix(items, gi[i].key);
    FirstItemOfPrefix(items, gi[j].key);
  }

  /** A bucket pushed for a new key comes after every earlier bucket. */
  lemma {:induction false} GroupOrderNewKey<K>(items: seq<Item<K>>, i: int)
    requires items != []
    requires 0 <= i < |GroupTotals(items[..|items| - 1])|
    requires !HasBucket(GroupTotals(items[..|items| - 1]), items[|items| - 1].key)
    requires GroupTotals(items) == GroupTotals(items[..|items| - 1]) + [Bucket(items[|items| - 1].key, items[|items| - 1].amount)]
    ensures HasItem(items, GroupTotals(items)[i].key) && HasItem(items, items[|items| - 1].key)
    ensures FirstItem(items, GroupTotals(items)[i].key) < FirstItem(items, items[|items| - 1].key)
  {
    var init := items[..|items| - 1];
    var last := items[|items| - 1];
    var gi := GroupTotals(init);
    GroupTotalsSpec(init);
    assert HasBucket(gi, gi[i].key);
    FirstItemOfPrefix(items, gi[i].key);
    assert !HasItem(init, last.key);
    assert HasItem(items, last.key) by {
      assert items[|items| - 1].key == last.key;
    }
    assert FirstItem(items, last.key) == |items| - 1;
  }

  /** The first bucket index with a key, given some index with it. */
  function FirstIndexOf<K(==)>(bs: seq<Bucket<K>>, k: K, t: int): (f: int)
    requires 0 <= t < |bs| && bs[t].key == k
    ensures 0 <= f <= t && bs[f].key == k && forall u :: 0 <= u < f ==> bs[u].key != k
  {
    if bs[0].key == k then 0 else FirstIndexOf(bs[1..], k, t - 1) + 1
  }

  /** A key present before the last record is first seen before it. */
  lemma {:induction false} FirstItemOfPrefix<K>(items: seq<Item<K>>, k: K)
    requires items != [] && HasItem(items[..|items| - 1], k)
    ensures HasItem(items, k)
    ensures FirstItem(items, k) == FirstItem(items[..|items| - 1], k)
  {
    var init := items[..|items| - 1];
    var a := FirstItem(init, k);
    assert items[a].key == k;
    var b := FirstItem(items, k);
  }

  /** Bucket keys in ascending order. */
  predicate SortedByKey(bs: seq<Bucket<int>>)
  {
    forall i, j :: 0 <= i < j < |bs| ==> bs[i].key <= bs[j].key
  }

  /** Insert one bucket into buckets sorted by key, after those with an equal key. */
  function Insert(b: Bucket<int>, bs: seq<Bucket<int>>): seq<Bucket<int>>
  {
    if bs == [] then [b]
    else if b.key < bs[0].key then [b] + bs
    else [bs[0]] + Insert(b, bs[1..])
  }

  /** `.sort((a, b) => a.date - b.date)`: a stable sort by key. */
  function SortByKey(bs: seq<Bucket<int>>): seq<Bucket<int>>
  {
    if bs == [] then [] else Insert(bs[0], SortByKey(bs[1..]))
  }

  lemma {:induction false} InsertMultiset(b: Bucket<int>, bs: seq<Bucket<int>>)
    ensures multiset(Insert(b, bs)) == multiset(bs) + multiset{b}
  {
    if bs != [] && b.key >= bs[0].key {
      InsertMultiset(b, bs[1..]);
      assert bs == [bs[0]] + bs[1..];
    }
  }

  lemma {:induction false} InsertSorted(b: Bucket<int>, bs: seq<Bucket<int>>)
    requires SortedByKey(bs)
    ensures SortedByKey(Insert(b, bs))
  {
    if bs != [] && b.key >= bs[0].key {
      InsertSorted(b, bs[1..]);
      InsertMultiset(b, bs[1..]);
      var rest := Insert(b, bs[1..]);
      forall t | 0 <= t < |rest| ensures bs[0].key <= rest[t].key {
        assert rest[t] in multiset(rest);
        assert rest[t] == b || rest[t] in multiset(bs[1..]);
        if rest[t] != b {
          var u :| 0 <= u < |bs[1..]| && bs[1..][u] == rest[t];
          assert bs[u + 1] == rest[t];
        }
      }
      var r := [bs[0]] + rest;
      forall i, j | 0 <= i < j < |r| ensures r[i].key <= r[j].key {
        if i > 0 {
          assert r[i] == rest[i - 1] && r[j] == rest[j - 1];
        }
      }
    }
  }

  lemma {:induction false} InsertSum(b: Bucket<int>, bs: seq<Bucket<int>>)
    ensures Sum(Totals(Insert(b, bs))) == Sum(Totals(bs)) + b.total
  {
    if bs != [] && b.key >= bs[0].key {
      InsertSum(b, bs[1..]);
      var rest := Insert(b, bs[1..]);
      assert Totals([bs[0]] + rest) == [bs[0].total] + Totals(rest);
      assert Totals(bs) == [bs[0].total] + Totals(bs[1..]);
    } else {
      assert Totals([b] + bs) == [b.total] + Totals(bs);
    }
  }

  /** The sort orders by key. */
  lemma {:induction false} SortByKeySorted(bs: seq<Bucket<int>>)
    ensures SortedByKey(SortByKey(bs))
  {
    if bs != [] {
      SortByKeySorted(bs[1..]);
      InsertSorted(bs[0], SortByKey(bs[1..]));
    }
  }

  /** The sort keeps every bucket, as often as it occurs. */
  lemma {:induction false} SortByKeyPermutes(bs: seq<Bucket<int>>)
    ensures multiset(SortByKey(bs)) == multiset(bs)
  {
    if bs != [] {
      SortByKeyPermutes(bs[1..]);
      InsertMultiset(bs[0], SortByKey(bs[1..]));
      assert bs == [bs[0]] + bs[1..];
    }
  }

  /** The sort keeps the sum of the totals. */
  lemma {:induction false} SortByKeySum(bs: seq<Bucket<int>>)
    ensures Sum(Totals(SortByKey(bs))) == Sum(Totals(bs))
  {
    if bs != [] {
      SortByKeySum(bs[1..]);
      InsertSum(bs[0], SortByKey(bs[1..]));
      assert Totals(bs) == [bs[0].total] + Totals(bs[1..]);
    }
  }

  /** Sorting buckets with distinct keys leaves them distinct, hence strictly ascending. */
  lemma {:induction false} SortedDistinctIsStrict(bs: seq<Bucket<int>>)
    requires DistinctKeys(bs)
    ensures forall i, j :: 0 <= i < j < |SortByKey(bs)| ==> SortByKey(bs)[i].key < SortByKey(bs)[j].key
  {
    SortByKeyPermutes(bs);
    SortByKeySorted(bs);
    var s := SortByKey(bs);
    forall i, j | 0 <= i < j < |s| ensures s[i].key < s[j].key {
      if s[i].key == s[j].key {
        SameKeyInPermutation(bs, s, i, j);
      }
    }
  }

  /** Two positions of a permutation of buckets with distinct keys do not share a key. */
  lemma {:induction false} SameKeyInPermutation(bs: seq<Bucket<int>>, s: seq<Bucket<int>>, i: int, j: int)
    requires DistinctKeys(bs) && multiset(s) == multiset(bs)
    requires 0 <= i < j < |s|
    ensures s[i].key != s[j].key
  {
    if s[i].key == s[j].key {
      assert s[i] in multiset(bs) && s[j] in multiset(bs);
      var a :| 0 <= a < |bs| && bs[a] == s[i];
      var b :| 0 <= b < |bs| && bs[b] == s[j];
      if a == b {
        CountTwo(s, i, j);
        DistinctCount(bs, s[i]);
      }
    }
  }

  /** A value at two positions occurs at least twice. */
  lemma CountTwo(s: seq<Bucket<int>>, i: int, j: int)
    requires 0 <= i < j < |s| && s[i] == s[j]
    ensures multiset(s)[s[i]] >= 2
  {
    assert s == s[..i] + [s[i]] + s[i + 1..j] + [s[j]] + s[j + 1..];
  }

  /** Distinct keys mean each bucket occurs at most once. */
  lemma {:induction false} DistinctCount(bs: seq<Bucket<int>>, x: Bucket<int>)
    requires DistinctKeys(bs)
    ensures multiset(bs)[x] <= 1
  {
    if bs != [] {
      DistinctCount(bs[1..], x);
      assert bs == [bs[0]] + bs[1..];
      if bs[0] == x {
        assert x !in bs[1..];
      }
    }
  }

  /**
   * A date-keyed chart: the buckets of the reduce, sorted by key. It holds one bucket per
   * distinct key of the records, strictly ascending, each with its key's summed amounts, and
   * the totals add up to the sum of all amounts.
   */
  lemma SortedGroupSpec(items: seq<Item<int>>)
    ensures var c := SortByKey(GroupTotals(items));
      && (forall i, j :: 0 <= i < j < |c| ==> c[i].key < c[j].key)
      && (forall k :: HasBucket(c, k) <==> HasItem(items, k))
      && (forall i :: 0 <= i < |c| ==> c[i].total == KeySum(items, c[i].key))
      && Sum(Totals(c)) == Sum(Amounts(items))
  {
    var g := GroupTotals(items);
    var c := SortByKey(g);
    GroupTotalsSpec(items);
    SortedDistinctIsStrict(g);
    SortByKeyPermutes(g);
    SortByKeySum(g);
    forall k ensures HasBucket(c, k) <==> HasBucket(g, k) {
      if HasBucket(c, k) {
        var i :| 0 <= i < |c| && c[i].key == k;
        assert c[i] in multiset(g);
      }
      if HasBucket(g, k) {
        var i :| 0 <= i < |g| && g[i].key == k;
        assert g[i] in multiset(c);
      }
    }
    forall i | 0 <= i < |c| ensures c[i].total == KeySum(items, c[i].key) {
      assert c[i] in multiset(g);
      var t :| 0 <= t < |g| && g[t] == c[i];
      BucketTotalOfMember(g, t);
    }
  }
}
