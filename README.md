# p2c+EWMA picker and struct-field selection, modelled in Dafny

This project models two parts of the `goutil` Go repository:

- `rpc/balancer/p2c-ewma.go` (module `Balancer`, file `balancer.dfy`). This is
  the client-side gRPC picker. Each ready backend has a statistics record
  (`SvrConn`) with six integer fields: `lag`, `inflight`, `success`,
  `requests`, `last` and `pick`.
  - `Build` turns a ready set into fresh records.
  - `Pick` chooses a record by power of two choices. Up to three random pairs
    are drawn, looking for one where both records are healthy. The tie-break
    `choose` prefers the lower `load()`, but force-picks the other record when
    it has not been picked for more than one second.
  - The completion closure (`DoneFunc.Call`) folds the call's latency and
    outcome into `lag` and `success` as time-decayed moving averages.

  The records are objects updated in place. `Picker` holds the snapshot's
  records, and each closure is an object that captures its record and start
  time.
- `selectx/field.go` (module `Selectx`, file `selectx.dfy`). `SelectField`
  projects one named field out of a slice of structs or of pointers to
  structs. `GetInt` and `GetString` narrow the result by type assertion.
  - Reflected values are a datatype classified by kind.
  - Go slices keep the difference between nil and made-but-empty.
  - `KindError` keeps the value-receiver `Set`, which never stores its
    message.

`wrappers.dfy` holds the `Option` type that both modules use for Go's nil-able
error results.

Some behaviours of the code are easy to miss, and the model keeps them:
- `load()` takes the floor of the square root of `lag+1`, not the ceiling
  (`LoadTruncatesRoot`).
- While `lag` is still 0, the completion forces the weight to 0, and that same
  weight is reused for the `success` update.
- The two sampled indices can be equal, because the second draw is bumped only
  when `b > a`.
- Truncation can stall recovery: a successful call that gains less than one
  point leaves the score where it was (`SuccessRecoveryStalls`).

## Model

| member | source | states |
|---|---|---|
| `Balancer.FloorSqrt` | rpc/balancer/p2c-ewma.go:47 | the result is the integer square root: r*r <= n < (r+1)*(r+1) |
| `Balancer.FloorSqrtMonotone` | rpc/balancer/p2c-ewma.go:47 | the integer square root is non-decreasing |
| `Balancer.SvrConn.Load` | rpc/balancer/p2c-ewma.go:45-55 | load is floor(sqrt(lag+1)) * (inflight+1). It falls back to 1<<31-1 exactly when inflight is -1. It is at least inflight+1 (so at least 1) when inflight >= 0, and negative when inflight < -1 |
| `Balancer.LoadMonotoneInLag` | rpc/balancer/p2c-ewma.go:45-55 | with inflight fixed and >= 0, a larger lag never gives a smaller load |
| `Balancer.LoadMonotoneInInflight` | rpc/balancer/p2c-ewma.go:45-55 | with lag fixed, a larger non-negative inflight never gives a smaller load |
| `Balancer.LoadTruncatesRoot` | rpc/balancer/p2c-ewma.go:47 | the root is truncated: lag 1 or 2 with nothing in flight has load 1, not 2 |
| `Balancer.SvrConn.Healthy` | rpc/balancer/p2c-ewma.go:57-59 | a record is healthy exactly when its success score is more than half of the initial score 1000 |
| `Balancer.HealthyThreshold` | rpc/balancer/p2c-ewma.go:57-59 | the health test is strict: success 500 is unhealthy, 501 is healthy |
| `Balancer.SvrConn.constructor` | rpc/balancer/p2c-ewma.go:73-77 | a new record carries its connection and address, with success 1000 and every other counter and time at 0 |
| `Balancer.Build` | rpc/balancer/p2c-ewma.go:65-84 | an empty ready set gives the error picker for ErrNoSubConnAvailable. Otherwise the result is a fresh picker with one distinct fresh initial record per ready entry, each holding that entry's address |
| `Balancer.Indices` | rpc/balancer/p2c-ewma.go:109-113 | the first index is the first draw, and the second index equals the first exactly when the two draws are equal |
| `Balancer.IndicesInRange` | rpc/balancer/p2c-ewma.go:109-113 | draws a < n and b < n-1 give two indices in [0, n) |
| `Balancer.Picker.Sampled` | rpc/balancer/p2c-ewma.go:107-119 | the pair the sampling loop keeps has both indices in range and is one of the drawn pairs |
| `Balancer.Picker.SampledIsFirstHealthy` | rpc/balancer/p2c-ewma.go:108-119 | the kept pair is the first drawn pair with both records healthy. If no pair is healthy it is the last pair; every earlier pair had an unhealthy record |
| `Balancer.Picker.SamplePair` | rpc/balancer/p2c-ewma.go:107-119 | the three-attempt loop with its early break returns exactly the pair Sampled describes |
| `Balancer.Winner` | rpc/balancer/p2c-ewma.go:180-189 | the tie-break returns one of its two arguments, and it returns the higher-load one only when that one was last picked more than ForcePick ago |
| `Balancer.WinnerRule` | rpc/balancer/p2c-ewma.go:180-189 | the whole rule, for any two records (the same one twice included): the higher-load record (c2 on a tie) wins exactly when it is overdue, and otherwise the lower-load one (c1 on a tie) wins |
| `Balancer.FreshPairPicksSecond` | rpc/balancer/p2c-ewma.go:180-189 | clock readings exceed a year, so never-picked records are overdue. Of two fresh records (or one record twice) the tie-break returns the second |
| `Balancer.Picker.Choose` | rpc/balancer/p2c-ewma.go:173-190 | with no second record it returns c1. Otherwise it returns Winner(c1, c2) in the old state. Only the returned record's pick is set to now; the other argument is unchanged |
| `Balancer.Picker.BuildDoneFunc` | rpc/balancer/p2c-ewma.go:138-140 | the callback is a fresh closure capturing the record and its start time |
| `Balancer.Picker.Pick` | rpc/balancer/p2c-ewma.go:94-133 | no records: ErrNoSubConnAvailable with a zero result. One record: that record. Two records: their tie-break. More: the tie-break of the sampled pair. The chosen record gets inflight+1, requests+1 and pick := now, with its other fields kept; every other record is unchanged |
| `Balancer.ConvexLow` | rpc/balancer/p2c-ewma.go:161 | before truncation, the blend olag*w + lag*(1-w) lies between the two values when the old one is the smaller |
| `Balancer.ConvexHigh` | rpc/balancer/p2c-ewma.go:161 | before truncation, the blend lies between the two values when the old one is the larger |
| `Balancer.Blend` | rpc/balancer/p2c-ewma.go:161 | the truncated convex blend lies between the old value and the sample. It is the sample when w is 0 and the old value when w is 1 |
| `Balancer.Weight` | rpc/balancer/p2c-ewma.go:152-160 | the decay weight is in [0, 1] and is forced to 0 while lag is still 0 |
| `Balancer.DoneFunc.Call` | rpc/balancer/p2c-ewma.go:140-170 | inflight drops by 1, last := now, and lag and success are blended with the clamped sample latency and outcome. On a first sample both take the sample exactly (success becomes 0 or 1000). A score within [0, 1000] stays within it. requests and pick are unchanged |
| `Balancer.AfterFailures` | rpc/balancer/p2c-ewma.go:167-169 | a run of failed completions never raises the success score |
| `Balancer.FailureLowersSuccess` | rpc/balancer/p2c-ewma.go:169 | a failed call with weight below 1 lowers a positive score by at least one point |
| `Balancer.FailureRunLowersSuccess` | rpc/balancer/p2c-ewma.go:167-169 | after k failures with weights below 1, the score is at most max(0, success - k) |
| `Balancer.FailureRunMakesUnhealthy` | rpc/balancer/p2c-ewma.go:167-169 | 500 consecutive failures leave any score from [0, 1000] at or below 500, which is unhealthy |
| `Balancer.SuccessAfterLongGapRestoresHealth` | rpc/balancer/p2c-ewma.go:167-169 | a successful call with weight at most 0.499 makes the score healthy whatever it was |
| `Balancer.SuccessRecoveryStalls` | rpc/balancer/p2c-ewma.go:169 | when (1000 - success) * (1 - w) < 1, a successful call leaves the score unchanged |
| `Selectx.KindError.Error` | selectx/field.go:10-12 | the error text is the message stored in the value |
| `Selectx.KindError.Set` | selectx/field.go:14-16 | Set assigns the message only in the receiver's copy |
| `Selectx.NewKindErr` | selectx/field.go:18-22 | every error built this way has empty Error() text, whatever message it was given |
| `Selectx.FieldValue` | selectx/field.go:91-104 | the result is nil exactly when the field is missing or not a string or integer kind. Otherwise it reflects back to the field's own value |
| `Selectx.IntOfField` | selectx/field.go:32 | through the int64 assertion a field reads as its value only when it is a signed integer. Unsigned, string and other fields read as 0 |
| `Selectx.StringOfField` | selectx/field.go:47 | through the string assertion a field reads as its value only when it is a string, and as "" otherwise |
| `Selectx.SelectField` | selectx/field.go:57-88 | it fails exactly when the input is not a slice or some element is neither a struct nor a pointer to one; a failure gives a nil result with no partial output. On success the result is a made slice of the same length (empty for an empty slice) whose element i is the named field of element i or of its target |
| `Selectx.GetInt` | selectx/field.go:25-36 | SelectField's errors are passed on as (nil, err). On success each element is the field's int64 value or 0, and the result is nil exactly when the input slice is empty |
| `Selectx.GetString` | selectx/field.go:39-52 | SelectField's errors are passed on as (nil, err). On success each element is the field's string value or "", and the result is nil exactly when the input slice is empty |

## Left out

- Integer widths: `lag` and `success` (uint64) and `inflight`, `requests`,
  `last` and `pick` (int64) are unbounded integers. Overflow of
  `lag*(inflight+1)`, of `lag+1` and of the counters is not modelled. These
  values are nanosecond durations and call counts, far below 2^63.
- Floating point:
  - `math.Sqrt` becomes the integer square root. From about 2^52 on, float64
    rounding can make the real code exceed it by one (for instance at
    (2^26+1)^2 - 1).
  - `math.Exp` becomes the `decay` parameter, any function into [0, 1] (it
    stands for exp(-d / 10 s)).
  - The float64 blends are exact real convex combinations, truncated by
    `Floor`, without float64 rounding.
- Randomness: `rand.Intn` becomes the `draws` parameter of `Pick`, required in
  range. The picker's random generator and its seeding are not modelled.
- Wall clock: `Now()` and `time.Since` become the `now`/`start` parameters of
  `Pick` and `DoneFunc.Call`. Only the fact that readings exceed a year is
  used (`ClockFloor`).
- Concurrency: the mutex, the atomic operations and interleaved calls are not
  modelled. The compare-and-swap in `choose` always succeeds, so its failure
  path (fall back to the lighter record) is not modelled.
- Callers may invoke the completion callback any number of times, as in the
  source. `inflight` is therefore not kept non-negative.
- `Build`'s error picker (`base.NewErrPicker`) is library code. It is
  represented only by the `ErrPicker(ErrNoSubConnAvailable)` value.
- Registration (`newBuilder`, `init`), `log.Println`, and the gRPC `SubConn`,
  `PickInfo`/`DoneInfo` and address types are gRPC plumbing. A `SubConn` is a
  number, an address is a string, and `DoneInfo` is reduced to its `failed`
  flag.
- Build's map iteration order is unspecified in Go. The model picks keys
  nondeterministically and promises nothing about order.
- `reflect`: a struct is the map of the fields `FieldByName` resolves. Field
  promotion through embedded structs, and the zero value returned for an
  ambiguous name, are folded into that map. Interface-kind elements, uintptr
  and every other kind are `Other`. Value ranges of the integer widths are not
  modelled.
- `mr/mapreduce.go`, `ts.go`, `redix/pool.go`, `threading/threading.go` and
  `verify/verify.go` are not part of this model. They are concurrency
  plumbing, a demo, a Redis client wrapper, goroutine launching and a type
  declaration.
