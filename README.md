# statclient aggregation engine, modelled in Dafny

`statclient` is a Go client for counter metrics. Callers push `(key, delta)`
increments. A background task merges them into a map from key to accumulated
`int64`. When the flush timer fires and the map is non-empty, the task lists
the map as `Pair`s and posts them to a collection endpoint. If the post
succeeds, the map is reset to empty. If it fails, the map is kept, so later
increments keep adding to the same totals.

This project models that engine as sequential code:

- `int64.dfy` (module `Int64`): Go's `int64` as a newtype. `Wrap` models
  two's-complement wrap-around, and `Add` models Go's `+` on `int64`.
  Overflow is modelled exactly, not excluded by a precondition.
- `flush.dfy` (module `Flush`): the `Pair` and `Request` records, and
  `FlushImmediate`, which posts exactly the caller's pairs. `FlushStat` is
  the map-to-pairs loop of `flushStat`. `ToMap` is what a receiver rebuilds
  from a payload.
- `aggregation.dfy` (module `Aggregation`): what the map holds, written as
  functions of the increments merged since the last reset (`Merge`,
  `Aggregate`, `SumFor`). The lemmas prove the per-key sum invariant, that a
  failed flush carries its totals over, and that increment order does not
  matter.
- `aggregator.dfy` (module `StatClient`): the `sendStat` loop as a class
  `Aggregator`. Its real field `counts` is the map. Its ghost field `log`
  holds the increments since the last successful flush. `Valid()` ties the
  two together. `Increment` and `Tick` are the two events.
  `RetainThenDeliver` runs a failed tick, an increment and a delivered tick
  on any aggregator. Four client methods cover concrete cases: three pushes
  summed per key, totals kept after a failed flush and summed on the next
  success, a tick on an empty map skipped, and a direct flush that bypasses
  the map.

The HTTP round trip is not modelled. Its result is an input of type
`Delivery`: the request could not be built, no response came back, or a
response came back with some status code. As in the source, any response
counts as a successful flush, whatever its status code.

## Model

| member | source | states |
|---|---|---|
| `Int64.Wrap` | statclient.go:99 | the int64 stored for an exact value differs from it by a multiple of 2^64, and equals it when the value is in int64 range |
| `Int64.Add` | statclient.go:99 | Go's `val + pair.Value` on int64: congruent to the exact sum modulo 2^64, and equal to it when no overflow occurs |
| `Int64.WrapAddLeft` | statclient.go:99 | wrapping a running total after every addition gives the same int64 as wrapping the exact total once |
| `Flush.FlushImmediate` | statclient.go:65-79 | the request delivered carries exactly the caller's pairs; an unbuildable request and a failed round trip are errors; any response, whatever its status, counts as success; no aggregator state is an argument |
| `Flush.FlushStat` | statclient.go:81-88 | the pairs list the map: one pair per key with that key's value, no key twice, length equal to the map's size; the outcome is FlushImmediate applied to those pairs |
| `Flush.ListingRoundTrip` | statclient.go:82-85 | a receiver that rebuilds a map from the flushed pairs gets back exactly the map that was flushed, in whatever order the keys were iterated |
| `Aggregation.Merge` | statclient.go:96-100 | merging one increment changes only the pushed key: it is inserted with the delta when absent, and set to old value plus delta (wrapped) when present |
| `Aggregation.AggregateIsPerKeySum` | statclient.go:92-100 | after any sequence of increments from an empty map, the keys are exactly the keys pushed, and each holds the int64 sum of the deltas pushed for it |
| `Aggregation.CarryOver` | statclient.go:96-109 | increments from before a failed flush and from after it are summed together per key in the map that the next flush sends |
| `Aggregation.AggregateOrderIndependent` | statclient.go:95-100 | any reordering of the same increments yields the same map |
| `StatClient.Aggregator.constructor` | statclient.go:92 | the map starts empty with no increments recorded |
| `StatClient.Aggregator.Increment` | statclient.go:95-100 | an absent key is inserted with the delta; a present key becomes old value plus delta (wrapped); the key set grows by that key only; every other key keeps its value; the per-key sum invariant is kept |
| `StatClient.Aggregator.Tick` | statclient.go:101-109 | an empty map is skipped without a flush attempt and left unchanged; otherwise the payload lists the map and the outcome is FlushImmediate's; the map becomes empty exactly when the flush succeeds and is otherwise unchanged |
| `StatClient.PayloadIsPerKeySum` | statclient.go:101-107 | a payload that lists the map holds every key pushed since the last successful flush, each with the int64 sum of its deltas |
| `StatClient.RetainThenDeliver` | statclient.go:96-109 | on any aggregator, a tick that does not deliver leaves the map as it was (or skips an empty map); after one more increment, a delivered tick sends a listing of every key pushed before or after, each with the int64 sum of all its deltas, and resets the map |
| `StatClient.ScenarioSums` | statclient.go:95-107 | pushes a:3, a:4, b:10; a successful tick then delivers exactly a:7 and b:10 |
| `StatClient.ScenarioRetainOnFailure` | statclient.go:95-109 | pushes x:1; a failing tick sends x:1 and keeps it; pushing x:2 and then a successful tick delivers x:3 |
| `StatClient.ScenarioEmptySkip` | statclient.go:102 | a tick with nothing pushed makes no flush attempt, whatever the network would do |
| `StatClient.ScenarioBypass` | statclient.go:65-78 | a direct FlushImmediate of y:5 delivers exactly y:5, even on a 500 response, and leaves the aggregator's map as it was |

## Left out

- The goroutine started in `init`, the 100000-slot channel, the blocking send in `PushStat` and the 60-second ticker (statclient.go:13-14, 21, 61-63, 91, 114-116) are concurrency and timing. Increments and ticks are sequential method calls here. A `PushStat` call is modelled as `Increment`. Channel capacity and blocking are not modelled.
- HTTP client configuration (`SetServiceEndpoint`, `SetMaxIdelConnsPerHost`, `SetRequestTimeout`, `refreshHttpClient`, statclient.go:35-59) is library state and is not modelled. As written, `SetRequestTimeout` assigns `requestTimeout` to itself and ignores its argument (statclient.go:45). Also, `hclient` is only created by the two setters that call `refreshHttpClient`, and the model assumes a client exists. In the source, if neither `SetMaxIdelConnsPerHost` nor `SetRequestTimeout` was called, `hclient` is nil. The first tick with a non-empty map then panics in `hclient.Do` (statclient.go:73) inside the background goroutine, and the panic ends the process.
- `http.NewRequest` and `hclient.Do` (statclient.go:68-76) are network I/O. The `Delivery` input stands for their result. The response status is never checked (statclient.go:73-78), and `FlushImmediate` keeps that behaviour.
- JSON encoding with `omitempty` tags (statclient.go:27-32, 66-67) is a foreign library, so the model's `Request` stays a structured value. The `json.Marshal` error is overwritten at statclient.go:68 and never checked. A pair whose value is 0 is encoded without its `val` field, and a receiver reads the missing field back as 0.
- Keys are modelled as `string`, a sequence of characters. Go keys are byte strings, and `json.Marshal` replaces invalid UTF-8 with U+FFFD, so two distinct keys can reach the receiver as one key. `ListingRoundTrip` therefore holds for the structured `Request` only, not for its JSON encoding. `omitempty` also drops an empty key (statclient.go:27), not only a zero value.
- The `llog.Error` call on a failed flush (statclient.go:105) is a logging side effect. The failed outcome is returned in `TickResult` instead.
- Go randomises the iteration order of a map. `FlushStat` picks keys in an unspecified order, and its contract fixes none.
