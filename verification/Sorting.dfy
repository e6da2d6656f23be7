/** The stable sort by action index, and lists of calls as bags. */
module Sorting {
  import opened Tables
  import opened Differences

  lemma {:induction false} BucketCount(calls: seq<Call>, index: int, c: Call)
    ensures multiset(Bucket(calls, index))[c] == if ActionIndex(c) == index then multiset(calls)[c] else 0
  {
    if calls != [] {
      BucketCount(calls[1..], index, c);
      assert calls == [calls[0]] + calls[1..];
    }
  }

  lemma {:induction false} BucketsCount(calls: seq<Call>, index: int, c: Call)
    requires index <= 6
    ensures multiset(BucketsFrom(calls, index))[c] == if index <= ActionIndex(c) then multiset(calls)[c] else 0
    decreases 6 - index
  {
    if index <= 5 {
      BucketCount(calls, index, c);
      BucketsCount(calls, index + 1, c);
    }
  }

  /** Sorting loses nothing and invents nothing. */
  lemma SortIsPermutation(a: seq<Call>, b: seq<Call>)
    ensures multiset(SortAndCombine(a, b)) == multiset(a + b)
  {
    var calls := a + b;
    forall c ensures multiset(BucketsFrom(calls, -1))[c] == multiset(calls)[c] {
      BucketsCount(calls, -1, c);
      KnownIndex(c);
    }
    SameCounts(SortAndCombine(a, b), calls);
  }

  lemma KnownIndex(c: Call)
    ensures -1 <= ActionIndex(c) <= 5
  {
  }

  lemma SameCounts(a: seq<Call>, b: seq<Call>)
    requires forall c :: multiset(a)[c] == multiset(b)[c]
    ensures multiset(a) == multiset(b)
  {
  }

  lemma {:induction false} BucketIndex(calls: seq<Call>, index: int)
    ensures forall c <- Bucket(calls, index) :: ActionIndex(c) == index
  {
    if calls != [] { BucketIndex(calls[1..], index); }
  }

  lemma {:induction false} BucketsSorted(calls: seq<Call>, index: int)
    requires index <= 6
    ensures Sorted(BucketsFrom(calls, index)) && forall c <- BucketsFrom(calls, index) :: index <= ActionIndex(c)
    decreases 6 - index
  {
    if index <= 5 {
      BucketIndex(calls, index);
      BucketsSorted(calls, index + 1);
      var head, tail := Bucket(calls, index), BucketsFrom(calls, index + 1);
      forall i, j | 0 <= i < j < |head + tail|
        ensures ActionIndex((head + tail)[i]) <= ActionIndex((head + tail)[j])
      {
        if i < |head| {
          assert head[i] in head;
          assert (head + tail)[j] in head || (head + tail)[j] in tail;
        }
      }
    }
  }

  lemma {:induction false} BucketOfConcat(a: seq<Call>, b: seq<Call>, index: int)
    ensures Bucket(a + b, index) == Bucket(a, index) + Bucket(b, index)
  {
    if a == [] {
      assert a + b == b;
    } else {
      BucketOfConcat(a[1..], b, index);
      assert (a + b)[1..] == a[1..] + b && (a + b)[0] == a[0];
      var head := if ActionIndex(a[0]) == index then [a[0]] else [];
      assert Bucket(a, index) == head + Bucket(a[1..], index);
    }
  }

  lemma {:induction false} BucketOfBucket(calls: seq<Call>, index: int, other: int)
    ensures Bucket(Bucket(calls, index), other) == if index == other then Bucket(calls, index) else []
  {
    if calls != [] {
      BucketOfBucket(calls[1..], index, other);
      var head := if ActionIndex(calls[0]) == index then [calls[0]] else [];
      BucketOfConcat(head, Bucket(calls[1..], index), other);
    }
  }

  lemma {:induction false} BucketOfBuckets(calls: seq<Call>, index: int, other: int)
    requires index <= 6
    ensures Bucket(BucketsFrom(calls, index), other) == if index <= other <= 5 then Bucket(calls, other) else []
    decreases 6 - index
  {
    if index <= 5 {
      BucketOfBuckets(calls, index + 1, other);
      BucketOfConcat(Bucket(calls, index), BucketsFrom(calls, index + 1), other);
      BucketOfBucket(calls, index, other);
    }
  }

  /** The result is sorted, and calls of one action index keep their order. */
  lemma SortIsStable(a: seq<Call>, b: seq<Call>)
    ensures Sorted(SortAndCombine(a, b))
    ensures forall index | -1 <= index <= 5 :: Bucket(SortAndCombine(a, b), index) == Bucket(a + b, index)
  {
    BucketsSorted(a + b, -1);
    forall index | -1 <= index <= 5 ensures Bucket(SortAndCombine(a, b), index) == Bucket(a + b, index) {
      BucketOfBuckets(a + b, -1, index);
    }
  }

  lemma {:induction false} DistinctCount(calls: seq<Call>, c: Call)
    requires DistinctKeys(calls)
    ensures multiset(calls)[c] <= 1
  {
    if calls != [] {
      DistinctCount(calls[1..], c);
      assert calls == [calls[0]] + calls[1..];
    }
  }

  lemma TwiceCount(calls: seq<Call>, i: nat, j: nat)
    requires i < j < |calls| && calls[i] == calls[j]
    ensures multiset(calls)[calls[i]] >= 2
  {
    assert calls == calls[..j] + calls[j..];
    assert calls[i] in calls[..j] && calls[j] in calls[j..];
  }

  /** A selection from a list with distinct keys has distinct keys. */
  lemma SelectionDistinct(calls: seq<Call>, selection: seq<Call>)
    requires DistinctKeys(calls) && multiset(selection) <= multiset(calls)
    ensures DistinctKeys(selection)
  {
    forall i, j | 0 <= i < j < |selection| ensures selection[i].key != selection[j].key {
      assert selection[i] in multiset(selection) && selection[j] in multiset(selection);
      assert selection[i] in calls && selection[j] in calls;
      if selection[i] == selection[j] {
        TwiceCount(selection, i, j);
        DistinctCount(calls, selection[i]);
      }
    }
  }

  /**
   The order of the sorted calls: backend sets are created, then updated, before any listener is touched; listeners are
   created, then updated, then deleted; and backend sets are deleted last.
   */
  lemma PhasesInOrder(a: seq<Call>, b: seq<Call>, i: nat, j: nat)
    requires forall c <- a + b :: c.key.kind == BackendSets || c.key.kind == Listeners
    requires i < j < |SortAndCombine(a, b)|
    ensures var before, after := SortAndCombine(a, b)[i], SortAndCombine(a, b)[j];
      && (after.key.kind == BackendSets && after.Create? ==> before.key.kind == BackendSets && before.Create?)
      && (after.key.kind == BackendSets && after.Update? ==> before.key.kind == BackendSets && !before.Delete?)
      && (after.key.kind == Listeners && after.Create? ==> before.key.kind == Listeners ==> before.Create?)
      && (after.key.kind == Listeners && after.Update? ==> before.key.kind == Listeners ==> !before.Delete?)
      && (before.key.kind == BackendSets && before.Delete? ==> after.key.kind == BackendSets && after.Delete?)
  {
    SortIsStable(a, b);
    SortIsPermutation(a, b);
    var calls := SortAndCombine(a, b);
    assert calls[i] in multiset(calls) && calls[j] in multiset(calls);
    assert calls[i] in a + b && calls[j] in a + b;
    assert ActionIndex(calls[i]) <= ActionIndex(calls[j]);
  }
}
