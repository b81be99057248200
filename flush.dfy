/**
  The flush path of statclient.go: the `Pair` and `Request` records, the
  map-to-pairs loop of `flushStat`, and `FlushImmediate`, which posts exactly
  the pairs it is given. The HTTP round trip is not modelled; what it did is
  an input (`Delivery`).
 */
module Flush {
  import opened Int64

  /** One counter total on the wire (JSON `{"key": ..., "val": ...}`). */
  datatype Pair = Pair(key: string, value: int64)

  /** The POST body (JSON `{"pairs": [...]}`). */
  datatype Request = Request(pairs: seq<Pair>)

  /** What the HTTP layer did with one flush: the request could not be built
      (a malformed endpoint URL), the round trip failed (refused, timed out),
      or a response came back with some status code. */
  datatype Delivery = Unbuildable | NoResponse | Responded(status: int)

  /** The error `FlushImmediate` hands back. */
  datatype FlushError = RequestError | TransportError

  /** Result of one flush: the request the endpoint received, or the error. */
  datatype Outcome = Delivered(request: Request) | Failed(error: FlushError)

  /** FlushImmediate: wraps the caller's pairs in a `Request` and posts it.
      Any response counts as delivery, whatever its status code; only a
      request that cannot be built or a failed round trip is an error.
      It takes no aggregator state, so it can neither read nor change one. */
  function FlushImmediate(pairs: seq<Pair>, delivery: Delivery): (r: Outcome)
    ensures r.Delivered? <==> delivery.Responded?
    ensures r.Delivered? ==> r.request.pairs == pairs
    ensures delivery == Unbuildable ==> r == Failed(RequestError)
    ensures delivery == NoResponse ==> r == Failed(TransportError)
  {
    match delivery
    case Unbuildable => Failed(RequestError)
    case NoResponse => Failed(TransportError)
    case Responded(_) => Delivered(Request(pairs))
  }

  /** The keys that occur in a sequence of pairs. */
  function KeysOf(pairs: seq<Pair>): set<string>
  {
    if pairs == [] then {} else KeysOf(pairs[..|pairs| - 1]) + {pairs[|pairs| - 1].key}
  }

  /** `pairs` lists the map `m`: one pair per key, carrying that key's value,
      no key twice. The order is whatever the map iteration produced. */
  ghost predicate IsListingOf(pairs: seq<Pair>, m: map<string, int64>)
  {
    && |pairs| == |m|
    && KeysOf(pairs) == m.Keys
    && (forall i :: 0 <= i < |pairs| ==> pairs[i].key in m && m[pairs[i].key] == pairs[i].value)
    && (forall i, j :: 0 <= i < j < |pairs| ==> pairs[i].key != pairs[j].key)
  }

  /** flushStat: turns the map into a list of pairs by iterating over its keys
      in an unspecified order, then hands that list to FlushImmediate. */
  method FlushStat(m: map<string, int64>, delivery: Delivery) returns (pairs: seq<Pair>, r: Outcome)
    ensures IsListingOf(pairs, m)
    ensures r == FlushImmediate(pairs, delivery)
  {
    pairs := [];
    var rest := m.Keys;
    while rest != {}
      invariant rest <= m.Keys
      invariant |pairs| + |rest| == |m|
      invariant forall i :: 0 <= i < |pairs| ==> pairs[i].key in m && m[pairs[i].key] == pairs[i].value
      invariant forall i :: 0 <= i < |pairs| ==> pairs[i].key !in rest
      invariant forall i, j :: 0 <= i < j < |pairs| ==> pairs[i].key != pairs[j].key
      invariant KeysOf(pairs) == m.Keys - rest
      decreases |rest|
    {
      var key :| key in rest;
      ghost var before := pairs;
      pairs := pairs + [Pair(key, m[key])];
      rest := rest - {key};
      assert pairs[..|before|] == before;
    }
    r := FlushImmediate(pairs, delivery);
  }

  /** What the endpoint reconstructs from a payload: each pair sets its key,
      a later pair overriding an earlier one. */
  function ToMap(pairs: seq<Pair>): map<string, int64>
  {
    if pairs == [] then map[]
    else ToMap(pairs[..|pairs| - 1])[pairs[|pairs| - 1].key := pairs[|pairs| - 1].value]
  }

  /** Where a key occurs in a sequence of pairs. */
  lemma {:induction false} KeyIndex(pairs: seq<Pair>, k: string) returns (i: nat)
    requires k in KeysOf(pairs)
    ensures i < |pairs| && pairs[i].key == k
  {
    var n := |pairs| - 1;
    if pairs[n].key == k {
      i := n;
    } else {
      i := KeyIndex(pairs[..n], k);
    }
  }

  /** Dropping the last pair of a listing lists the map without that key. */
  lemma ListingDropLast(pairs: seq<Pair>, m: map<string, int64>)
    requires pairs != [] && IsListingOf(pairs, m)
    ensures IsListingOf(pairs[..|pairs| - 1], m - {pairs[|pairs| - 1].key})
  {
    var n := |pairs| - 1;
    var init, m' := pairs[..n], m - {pairs[n].key};
    assert m'.Keys == m.Keys - {pairs[n].key};
    forall i | 0 <= i < |init|
      ensures init[i].key in m' && m'[init[i].key] == init[i].value
    {
      assert init[i] == pairs[i] && pairs[i].key != pairs[n].key;
    }
    if pairs[n].key in KeysOf(init) {
      var i := KeyIndex(init, pairs[n].key);
      assert false;
    }
  }

  /** A listing loses nothing: the endpoint rebuilds exactly the flushed map,
      whatever order the pairs came in. */
  lemma {:induction false} ListingRoundTrip(pairs: seq<Pair>, m: map<string, int64>)
    requires IsListingOf(pairs, m)
    ensures ToMap(pairs) == m
  {
    if pairs != [] {
      var n := |pairs| - 1;
      var last := pairs[n];
      ListingDropLast(pairs, m);
      ListingRoundTrip(pairs[..n], m - {last.key});
      assert last.key in m && m[last.key] == last.value;
      assert (m - {last.key})[last.key := last.value] == m;
    }
  }
}
