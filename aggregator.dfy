/**
  The aggregation loop of `sendStat`, with the goroutine, channel and ticker
  taken away: one object owning the accumulation map, reacting to increment
  events and to ticks one at a time. What the HTTP layer does on a tick is
  passed in as a `Delivery`.
 */
module StatClient {
  import opened Int64
  import opened Flush
  import opened Aggregation

  /** What one tick did: nothing (the map was empty), or a flush attempt of
      `payload` with its outcome. */
  datatype TickResult = Skipped | Attempted(payload: seq<Pair>, outcome: Outcome)

  class Aggregator {
    /** `sMap`: counter key to accumulated int64. */
    var counts: map<string, int64>
    /** The increments merged since the last successful flush, in order. */
    ghost var log: seq<Pair>

    ghost predicate Valid()
      reads this
    {
      counts == Aggregate(log)
    }

    /** The map starts empty. */
    constructor ()
      ensures Valid() && counts == map[] && log == []
    {
      counts := map[];
      log := [];
    }

    /** An increment event received from the channel. */
    method Increment(key: string, delta: int64)
      requires Valid()
      modifies this
      ensures Valid()
      ensures log == old(log) + [Pair(key, delta)]
      ensures counts.Keys == old(counts).Keys + {key}
      ensures key !in old(counts) ==> counts[key] == delta
      ensures key in old(counts) ==> counts[key] == Wrap(old(counts)[key] as int + delta as int)
      ensures forall k :: k in old(counts) && k != key ==> counts[k] == old(counts)[k]
    {
      if key !in counts {
        counts := counts[key := delta];
      } else {
        var val := counts[key];
        counts := counts[key := Add(val, delta)];
      }
      log := log + [Pair(key, delta)];
      assert log[..|log| - 1] == old(log);
    }

    /** A tick of the flush timer. An empty map is left alone and nothing is
        sent. Otherwise the map is listed and flushed; on success the map is
        reset to empty, on failure it is kept as it was. */
    method Tick(delivery: Delivery) returns (t: TickResult)
      requires Valid()
      modifies this
      ensures Valid()
      ensures t.Skipped? <==> old(counts) == map[]
      ensures t.Attempted? ==> IsListingOf(t.payload, old(counts))
      ensures t.Attempted? ==> t.outcome == FlushImmediate(t.payload, delivery)
      ensures t.Attempted? && t.outcome.Delivered? ==> counts == map[] && log == []
      ensures !(t.Attempted? && t.outcome.Delivered?) ==> counts == old(counts) && log == old(log)
    {
      if |counts| > 0 {
        var pairs, r := FlushStat(counts, delivery);
        t := Attempted(pairs, r);
        if r.Delivered? {
          counts := map[];
          log := [];
        }
      } else {
        t := Skipped;
      }
    }
  }

  /** What a successful flush delivers, per key: every key pushed since the
      last successful flush is in the payload exactly once, with the int64
      sum of the deltas pushed for it. */
  lemma {:induction false} PayloadIsPerKeySum(log: seq<Pair>, payload: seq<Pair>)
    requires IsListingOf(payload, Aggregate(log))
    ensures KeysOf(payload) == KeysOf(log)
    ensures forall i :: 0 <= i < |payload| ==> payload[i].value == Wrap(SumFor(log, payload[i].key))
  {
    AggregateIsPerKeySum(log);
  }

  /** A tick that does not deliver keeps the totals; after one more
      increment, the next delivered flush sends every key pushed before or
      after the failure, each with the int64 sum of all its deltas. */
  method RetainThenDeliver(agg: Aggregator, failure: Delivery, key: string, delta: int64, success: Delivery)
    returns (first: TickResult, second: TickResult)
    requires agg.Valid()
    requires !failure.Responded? && success.Responded?
    modifies agg
    ensures agg.Valid() && agg.counts == map[] && agg.log == []
    ensures first.Skipped? <==> old(agg.counts) == map[]
    ensures first.Attempted? ==> first.outcome.Failed? && IsListingOf(first.payload, old(agg.counts))
    ensures second.Attempted? && second.outcome.Delivered?
    ensures IsListingOf(second.payload, Aggregate(old(agg.log) + [Pair(key, delta)]))
    ensures KeysOf(second.payload) == KeysOf(old(agg.log)) + {key}
    ensures forall i :: 0 <= i < |second.payload| ==>
      second.payload[i].value == Wrap(SumFor(old(agg.log) + [Pair(key, delta)], second.payload[i].key))
  {
    ghost var all := agg.log + [Pair(key, delta)];
    first := agg.Tick(failure);
    agg.Increment(key, delta);
    assert agg.log == all;
    second := agg.Tick(success);
    PayloadIsPerKeySum(all, second.payload);
    assert all[..|all| - 1] == old(agg.log);
  }

  /** Three increments then a successful tick: the payload lists a:7, b:10. */
  method ScenarioSums() returns (t: TickResult)
    ensures t.Attempted? && t.outcome.Delivered?
    ensures IsListingOf(t.payload, map["a" := 7, "b" := 10])
    ensures t.outcome.request.pairs == t.payload
  {
    var agg := new Aggregator();
    agg.Increment("a", 3);
    agg.Increment("a", 4);
    agg.Increment("b", 10);
    assert agg.counts == map["a" := 7, "b" := 10];
    t := agg.Tick(Responded(200));
  }

  /** A tick whose flush fails keeps x:1; after another increment of x by 2,
      the next successful tick delivers x:3. */
  method ScenarioRetainOnFailure() returns (first: TickResult, second: TickResult)
    ensures first.Attempted? && first.outcome == Failed(TransportError)
    ensures IsListingOf(first.payload, map["x" := 1])
    ensures second.Attempted? && second.outcome.Delivered?
    ensures IsListingOf(second.payload, map["x" := 3])
  {
    var agg := new Aggregator();
    agg.Increment("x", 1);
    first := agg.Tick(NoResponse);
    assert agg.counts == map["x" := 1];
    agg.Increment("x", 2);
    assert agg.counts == map["x" := 3];
    second := agg.Tick(Responded(200));
  }

  /** A flush with nothing pushed makes no attempt. */
  method ScenarioEmptySkip(delivery: Delivery) returns (t: TickResult)
    ensures t == Skipped
  {
    var agg := new Aggregator();
    t := agg.Tick(delivery);
  }

  /** A direct FlushImmediate sends exactly the caller's pairs and leaves the
      aggregator's map as it was. */
  method ScenarioBypass() returns (r: Outcome, kept: map<string, int64>)
    ensures r == Delivered(Request([Pair("y", 5)]))
    ensures kept == map["a" := 1]
  {
    var agg := new Aggregator();
    agg.Increment("a", 1);
    r := FlushImmediate([Pair("y", 5)], Responded(500));
    kept := agg.counts;
  }
}
