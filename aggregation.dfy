/**
  What the aggregation map of `sendStat` holds, as functions of the
  increments merged into it since it was last reset. An increment is a
  `Pair` (the source sends `*Pair` values over its channel).
 */
module Aggregation {
  import opened Int64
  import opened Flush

  /** One increment event merged into the map: a key not yet present is
      inserted with the delta, a present key gets the delta added (with int64
      wrap-around). No other key is touched. */
  function Merge(m: map<string, int64>, p: Pair): (r: map<string, int64>)
    ensures p.key in r && r == m[p.key := r[p.key]]
    ensures r[p.key] == if p.key in m then Wrap(m[p.key] as int + p.value as int) else p.value
  {
    if p.key !in m then m[p.key := p.value] else m[p.key := Add(m[p.key], p.value)]
  }

  /** The map after merging the increments of `log`, in order, into an empty map. */
  function Aggregate(log: seq<Pair>): map<string, int64>
  {
    if log == [] then map[] else Merge(Aggregate(log[..|log| - 1]), log[|log| - 1])
  }

  /** The exact (unwrapped) sum of the deltas pushed for `k`. */
  function SumFor(log: seq<Pair>, k: string): int
  {
    if log == [] then 0
    else SumFor(log[..|log| - 1], k) + (if log[|log| - 1].key == k then log[|log| - 1].value as int else 0)
  }

  /** A key never pushed has sum zero. */
  lemma {:induction false} SumForAbsent(log: seq<Pair>, k: string)
    requires k !in KeysOf(log)
    ensures SumFor(log, k) == 0
  {
    if log != [] {
      SumForAbsent(log[..|log| - 1], k);
    }
  }

  /** The aggregation invariant: the map's keys are exactly the keys pushed,
      and each holds the int64 (wrapped) sum of all deltas pushed for it. */
  lemma {:induction false} AggregateIsPerKeySum(log: seq<Pair>)
    ensures Aggregate(log).Keys == KeysOf(log)
    ensures forall k :: k in Aggregate(log) ==> Aggregate(log)[k] == Wrap(SumFor(log, k))
  {
    if log != [] {
      var init := log[..|log| - 1];
      AggregateIsPerKeySum(init);
      forall k | k in Aggregate(log)
        ensures Aggregate(log)[k] == Wrap(SumFor(log, k))
      {
        MergeKeepsSum(log, k);
      }
    }
  }

  /** One step of AggregateIsPerKeySum: merging the last increment keeps a
      key's value equal to its wrapped sum. */
  lemma MergeKeepsSum(log: seq<Pair>, k: string)
    requires log != []
    requires Aggregate(log[..|log| - 1]).Keys == KeysOf(log[..|log| - 1])
    requires k in Aggregate(log[..|log| - 1]) ==>
      Aggregate(log[..|log| - 1])[k] == Wrap(SumFor(log[..|log| - 1], k))
    requires k in Aggregate(log)
    ensures Aggregate(log)[k] == Wrap(SumFor(log, k))
  {
    var init, p := log[..|log| - 1], log[|log| - 1];
    var m := Aggregate(init);
    assert Aggregate(log) == Merge(m, p);
    assert SumFor(log, k) == SumFor(init, k) + (if p.key == k then p.value as int else 0);
    if k == p.key {
      if k in m {
        WrapAddLeft(SumFor(init, k), p.value as int);
      } else {
        SumForAbsent(init, k);
      }
    }
  }

  /** Sums split over concatenation. */
  lemma {:induction false} SumForAppend(a: seq<Pair>, b: seq<Pair>, k: string)
    ensures SumFor(a + b, k) == SumFor(a, k) + SumFor(b, k)
  {
    if b != [] {
      var n := |b| - 1;
      assert (a + b)[..|a + b| - 1] == a + b[..n];
      SumForAppend(a, b[..n], k);
    } else {
      assert a + b == a;
    }
  }

  /** Keys split over concatenation. */
  lemma {:induction false} KeysOfAppend(a: seq<Pair>, b: seq<Pair>)
    ensures KeysOf(a + b) == KeysOf(a) + KeysOf(b)
  {
    if b != [] {
      var n := |b| - 1;
      assert (a + b)[..|a + b| - 1] == a + b[..n];
      KeysOfAppend(a, b[..n]);
    } else {
      assert a + b == a;
    }
  }

  /** A failed flush keeps the map, so the increments before it (`earlier`)
      and after it (`later`) end up summed together per key. */
  lemma {:induction false} CarryOver(earlier: seq<Pair>, later: seq<Pair>)
    ensures Aggregate(earlier + later).Keys == KeysOf(earlier) + KeysOf(later)
    ensures forall k :: k in Aggregate(earlier + later) ==>
      Aggregate(earlier + later)[k] == Wrap(SumFor(earlier, k) + SumFor(later, k))
  {
    var all := earlier + later;
    AggregateIsPerKeySum(all);
    KeysOfAppend(earlier, later);
    forall k | k in Aggregate(all)
      ensures Aggregate(all)[k] == Wrap(SumFor(earlier, k) + SumFor(later, k))
    {
      assert Aggregate(all)[k] == Wrap(SumFor(all, k));
      SumForAppend(earlier, later, k);
    }
  }

  /** Reordering the increments changes neither the keys nor any sum. */
  lemma {:induction false} SumForPermutation(l1: seq<Pair>, l2: seq<Pair>, k: string)
    requires multiset(l1) == multiset(l2)
    ensures SumFor(l1, k) == SumFor(l2, k)
    decreases |l1|
  {
    if l1 != [] {
      var n := |l1| - 1;
      var p := l1[n];
      assert p in multiset(l2);
      var i :| 0 <= i < |l2| && l2[i] == p;
      var rest := l2[..i] + l2[i + 1..];
      assert l2 == l2[..i] + [p] + l2[i + 1..];
      assert l1 == l1[..n] + [p];
      assert multiset(l1[..n]) == multiset(l1) - multiset{p};
      assert multiset(rest) == multiset(l2) - multiset{p};
      SumForPermutation(l1[..n], rest, k);
      SumForAppend(l2[..i] + [p], l2[i + 1..], k);
      SumForAppend(l2[..i], [p], k);
      SumForAppend(l2[..i], l2[i + 1..], k);
      assert [p][..0] == [];
    }
  }

  /** The increments' order does not matter: any reordering of the same
      increments yields the same map. */
  lemma {:induction false} AggregateOrderIndependent(l1: seq<Pair>, l2: seq<Pair>)
    requires multiset(l1) == multiset(l2)
    ensures Aggregate(l1) == Aggregate(l2)
  {
    AggregateIsPerKeySum(l1);
    AggregateIsPerKeySum(l2);
    KeysOfMultiset(l1, l2);
    forall k | k in Aggregate(l1)
      ensures Aggregate(l1)[k] == Aggregate(l2)[k]
    {
      SumForPermutation(l1, l2, k);
    }
  }

  /** The set of keys depends only on which increments there are. */
  lemma {:induction false} KeysOfMultiset(l1: seq<Pair>, l2: seq<Pair>)
    requires multiset(l1) == multiset(l2)
    ensures KeysOf(l1) == KeysOf(l2)
  {
    forall k ensures k in KeysOf(l1) <==> k in KeysOf(l2) {
      KeyPresent(l1, k);
      KeyPresent(l2, k);
    }
  }

  /** A key is in `KeysOf(log)` exactly when some pair of `log` carries it. */
  lemma {:induction false} KeyPresent(log: seq<Pair>, k: string)
    ensures k in KeysOf(log) <==> exists p :: p in multiset(log) && p.key == k
  {
    if log != [] {
      var n := |log| - 1;
      assert log == log[..n] + [log[n]];
      KeyPresent(log[..n], k);
    }
  }
}
