/**
 * The p2c+EWMA connection picker of the RPC client (rpc/balancer/p2c-ewma.go).
 *
 * Each ready backend gets a statistics record (SvrConn). A Picker holds the
 * records of one snapshot of the ready set and picks a record per call by
 * "power of two choices": two records are sampled and the one with the lower
 * load wins, unless the other has not been picked for more than ForcePick.
 * The call's completion (DoneFunc.Call) folds latency and outcome back into
 * the record as time-decayed moving averages.
 *
 * Readings of the package clock `Now()` (nanoseconds), the random index draws
 * and the decay weight exp(-d / 10 s) are parameters of the operations;
 * the mutex and the atomic loads, stores, adds, swaps and compare-and-swap are
 * read as plain sequential accesses.
 */
module Balancer {
  import opened Wrappers

  /** One second, in nanoseconds: a record idle for longer is force-picked. */
  const ForcePick: int := 1_000_000_000
  /** The optimistic success score of a fresh record. */
  const InitSuccess: nat := 1000
  /** A record is healthy when its success score is strictly above this. */
  const ThrottleSuccess: nat := InitSuccess / 2
  /** The load reported when the computed product is zero (1<<31 - 1). */
  const FallbackLoad: int := 0x7FFF_FFFF
  /** How many random pairs Pick draws, at most, looking for a healthy one. */
  const Attempts: nat := 3
  /** The score a single completed call contributes: 1000 on success, 0 on failure. */
  const SampleSuccess: nat := 1000
  /**
   * The clock counts from a point set one year, one month and one day before
   * the program started, so every reading is more than a year (in ns).
   */
  const ClockFloor: int := 365 * 24 * 3600 * 1_000_000_000

  /** An opaque handle of a transport connection. */
  type SubConn = nat

  datatype Address = Address(addr: string)

  datatype PickError = ErrNoSubConnAvailable

  /** One random draw of the sampling loop: a = Intn(n), b = Intn(n - 1). */
  datatype Draw = Draw(a: nat, b: nat)

  /*
   * Integer arithmetic standing for the floating-point steps of the source.
   */

  /** The integer part of the square root (math.Sqrt followed by int64()). */
  function FloorSqrt(n: nat): (r: nat)
    ensures r * r <= n < (r + 1) * (r + 1)
  {
    if n == 0 then 0
    else
      var r := FloorSqrt(n - 1);
      if (r + 1) * (r + 1) <= n then
        assert (r + 1) * (r + 1) < (r + 2) * (r + 2);
        r + 1
      else r
  }

  lemma {:induction false} SquareMonotone(x: nat, y: nat)
    requires x <= y
    ensures x * x <= y * y
  {
    MulMonotone(x, y, x);
    MulMonotone(x, y, y);
  }

  lemma MulMonotone(x: int, y: int, k: nat)
    requires x <= y
    ensures x * k <= y * k
  {
  }

  lemma {:induction false} FloorSqrtMonotone(m: nat, n: nat)
    requires m <= n
    ensures FloorSqrt(m) <= FloorSqrt(n)
  {
    var a, b := FloorSqrt(m), FloorSqrt(n);
    if a > b {
      SquareMonotone(b + 1, a);
      assert false;
    }
  }

  /** Multiplying by a positive factor keeps the sign and does not shrink. */
  lemma ScaledSign(root: nat, k: int)
    requires root >= 1
    ensures k >= 0 ==> root * k >= k
    ensures k < 0 ==> root * k < 0
    ensures root * k == 0 <==> k == 0
  {
    if k >= 0 {
      MulMonotone(1, root, k);
    } else {
      assert root * k == -(root * -k);
      MulMonotone(1, root, -k);
    }
  }

  /** The root is at least 1 for every positive argument. */
  lemma FloorSqrtPositive(n: nat)
    requires n >= 1
    ensures FloorSqrt(n) >= 1
  {
  }

  /** The convex blend x*w + y*(1-w) of two samples, before truncation. */
  function Mix(x: real, y: real, w: real): real
  {
    x * w + y * (1.0 - w)
  }

  /**
   * The truncating conversion of a convex blend of two non-negative samples:
   * uint64(float64(prev) * w + float64(sample) * (1 - w)).
   */
  function Blend(prev: nat, sample: nat, w: real): (r: nat)
    requires 0.0 <= w <= 1.0
    ensures prev <= sample ==> prev <= r <= sample
    ensures sample <= prev ==> sample <= r <= prev
    ensures w == 0.0 ==> r == sample
    ensures w == 1.0 ==> r == prev
  {
    var p, s := prev as real, sample as real;
    MixEnds(p, s, w);
    if prev <= sample then
      ConvexLow(p, s, w);
      FloorWithin(Mix(p, s, w), prev, sample);
      Mix(p, s, w).Floor
    else
      ConvexHigh(p, s, w);
      FloorWithin(Mix(p, s, w), sample, prev);
      Mix(p, s, w).Floor
  }

  lemma FloorWithin(x: real, lo: int, hi: int)
    requires lo as real <= x <= hi as real
    ensures lo <= x.Floor <= hi
  {
  }

  /** Weight 0 keeps only the sample, weight 1 only the old value. */
  lemma MixEnds(x: real, y: real, w: real)
    ensures w == 0.0 ==> Mix(x, y, w) == y
    ensures w == 1.0 ==> Mix(x, y, w) == x
  {
  }

  /** Blending x into y with weight w is blending y into x with weight 1 - w. */
  lemma MixSwap(x: real, y: real, w: real)
    ensures Mix(x, y, w) == Mix(y, x, 1.0 - w)
  {
  }

  /** A blend lies between its two samples (lower sample first). */
  lemma ConvexLow(x: real, y: real, w: real)
    requires x <= y && 0.0 <= w <= 1.0
    ensures x <= Mix(x, y, w) <= y
  {
    assert Mix(x, y, w) == x * w + y * (1.0 - w);
  }

  /** A blend lies between its two samples (higher sample first). */
  lemma ConvexHigh(x: real, y: real, w: real)
    requires y <= x && 0.0 <= w <= 1.0
    ensures y <= Mix(x, y, w) <= x
  {
    ConvexLow(y, x, 1.0 - w);
    MixSwap(x, y, w);
  }

  /** max(0, x): the clamp applied to both time differences of a completion. */
  function Clamp(x: int): nat
  {
    if x < 0 then 0 else x
  }

  /*
   * Per-backend statistics.
   */

  class SvrConn {
    const addr: Address
    const conn: SubConn
    /** Moving average of the call latency; 0 means "never sampled". */
    var lag: nat
    /** Calls picked on this connection and not yet completed. */
    var inflight: int
    /** Moving average of the per-call success score, from 0 to 1000. */
    var success: nat
    /** Calls ever picked on this connection. */
    var requests: int
    /** Clock reading of the last completion. */
    var last: int
    /** Clock reading of the last time this record was picked. */
    var pick: int

    constructor (conn: SubConn, addr: Address)
      ensures this.conn == conn && this.addr == addr
      ensures Initial()
    {
      this.conn := conn;
      this.addr := addr;
      lag, inflight, success, requests, last, pick := 0, 0, InitSuccess, 0, 0, 0;
    }

    /** The state in which Build creates a record. */
    predicate Initial()
      reads this
    {
      lag == 0 && inflight == 0 && success == InitSuccess &&
      requests == 0 && last == 0 && pick == 0
    }

    /**
     * floor(sqrt(lag + 1)) * (inflight + 1), or FallbackLoad when that product
     * is zero, which happens exactly when inflight is -1.
     */
    function Load(): (l: int)
      reads this
      ensures inflight >= 0 ==> l >= inflight + 1
      ensures inflight == -1 ==> l == FallbackLoad
      ensures inflight < -1 ==> l < 0
      ensures inflight != -1 ==> l == FloorSqrt(lag + 1) * (inflight + 1)
    {
      FloorSqrtPositive(lag + 1);
      var root := FloorSqrt(lag + 1);
      ScaledSign(root, inflight + 1);
      var load := root * (inflight + 1);
      if load == 0 then FallbackLoad else load
    }

    /** Healthy: the success score is above half of the optimistic initial score. */
    predicate Healthy(): (h: bool)
      reads this
      ensures h <==> 2 * success > InitSuccess
    {
      success > ThrottleSuccess
    }
  }

  /** With the in-flight count fixed and non-negative, load grows with lag. */
  lemma LoadMonotoneInLag(c: SvrConn, d: SvrConn)
    requires c.inflight == d.inflight >= 0
    requires c.lag <= d.lag
    ensures c.Load() <= d.Load()
  {
    FloorSqrtMonotone(c.lag + 1, d.lag + 1);
    MulMonotone(FloorSqrt(c.lag + 1), FloorSqrt(d.lag + 1), c.inflight + 1);
  }

  /** With lag fixed, load grows with a non-negative in-flight count. */
  lemma LoadMonotoneInInflight(c: SvrConn, d: SvrConn)
    requires c.lag == d.lag
    requires 0 <= c.inflight <= d.inflight
    ensures c.Load() <= d.Load()
  {
    var root := FloorSqrt(c.lag + 1);
    MulMonotone(c.inflight + 1, d.inflight + 1, root);
  }

  /**
   * The square root is truncated, not rounded up: with lag 1 or 2 and no call
   * in flight the load is 1, where rounding the root up would give 2.
   */
  lemma LoadTruncatesRoot(c: SvrConn)
    requires c.inflight == 0 && 1 <= c.lag <= 2
    ensures c.Load() == 1
  {
    assert FloorSqrt(c.lag + 1) == 1 by {
      var r := FloorSqrt(c.lag + 1);
      if r >= 2 {
        SquareMonotone(2, r);
      }
    }
  }

  /** The health threshold is strict: 500 is unhealthy, 501 healthy. */
  lemma HealthyThreshold(c: SvrConn)
    ensures c.success <= 500 ==> !c.Healthy()
    ensures c.success >= 501 ==> c.Healthy()
  {
  }

  /*
   * The tie-break.
   */

  /**
   * The record choose(c1, c2) returns: order the two by load (c1 first on a
   * tie); the second, heavier one wins when it has not been picked for more
   * than ForcePick, the lighter one otherwise.
   */
  function Winner(c1: SvrConn, c2: SvrConn, now: int): (w: SvrConn)
    reads c1, c2
    ensures w == c1 || w == c2
    ensures w.Load() > (if w == c1 then c2 else c1).Load() ==> now - w.pick > ForcePick
  {
    var (lo, hi) := if c1.Load() > c2.Load() then (c2, c1) else (c1, c2);
    if now - hi.pick > ForcePick then hi else lo
  }

  /**
   * The whole rule of choose: the heavier record (c2 on a tie) wins exactly
   * when it is overdue, and otherwise the lighter one (c1 on a tie) wins.
   */
  lemma WinnerRule(c1: SvrConn, c2: SvrConn, now: int)
    ensures c1.Load() <= c2.Load() && now - c2.pick <= ForcePick ==> Winner(c1, c2, now) == c1
    ensures c1.Load() > c2.Load() && now - c1.pick <= ForcePick ==> Winner(c1, c2, now) == c2
    ensures c1.Load() <= c2.Load() && now - c2.pick > ForcePick ==> Winner(c1, c2, now) == c2
    ensures c1.Load() > c2.Load() && now - c1.pick > ForcePick ==> Winner(c1, c2, now) == c1
  {
  }

  /**
   * A record never picked is overdue at every clock reading, so of two fresh
   * records (equal loads) choose returns the second one.
   */
  lemma FreshPairPicksSecond(c1: SvrConn, c2: SvrConn, now: int)
    requires c1.Initial() && c2.Initial()
    requires now >= ClockFloor
    ensures Winner(c1, c2, now) == c2
  {
  }

  /*
   * The decay weight and the completion update.
   */

  /**
   * The weight given to the old averages: exp(-gap / 10 s) for the gap
   * since the previous completion, overridden to 0 while lag is still 0.
   */
  function Weight(oldLag: nat, prevLast: int, now: int, decay: nat -> real): (w: real)
    requires forall d :: 0.0 <= decay(d) <= 1.0
    ensures 0.0 <= w <= 1.0
    ensures oldLag == 0 ==> w == 0.0
  {
    if oldLag == 0 then 0.0 else decay(Clamp(now - prevLast))
  }

  /** The success score after a run of failed calls, one weight per call. */
  function AfterFailures(success: nat, ws: seq<real>): (r: nat)
    requires forall i :: 0 <= i < |ws| ==> 0.0 <= ws[i] <= 1.0
    ensures r <= success
  {
    if ws == [] then success else AfterFailures(Blend(success, 0, ws[0]), ws[1..])
  }

  /** A failed call lowers a positive score by at least one, unless w is 1. */
  lemma FailureLowersSuccess(success: nat, w: real)
    requires 0.0 <= w < 1.0
    ensures Blend(success, 0, w) <= if success == 0 then 0 else success - 1
  {
    if success > 0 {
      MixTowardZero(success as real, w);
    }
  }

  /** Blending a positive value towards 0 with weight below 1 strictly lowers it. */
  lemma MixTowardZero(x: real, w: real)
    requires x > 0.0 && 0.0 <= w < 1.0
    ensures Mix(x, 0.0, w) < x
  {
    assert Mix(x, 0.0, w) == x * w;
  }

  /** Each failure in a run (weights below 1) takes at least one point off. */
  lemma {:induction false} FailureRunLowersSuccess(success: nat, ws: seq<real>)
    requires forall i :: 0 <= i < |ws| ==> 0.0 <= ws[i] < 1.0
    ensures AfterFailures(success, ws) <= if success >= |ws| then success - |ws| else 0
  {
    if ws != [] {
      FailureLowersSuccess(success, ws[0]);
      var next := Blend(success, 0, ws[0]);
      FailureRunLowersSuccess(next, ws[1..]);
    }
  }

  /** 500 consecutive failures make any record with a score in range unhealthy. */
  lemma FailureRunMakesUnhealthy(success: nat, ws: seq<real>)
    requires success <= InitSuccess && |ws| >= 500
    requires forall i :: 0 <= i < |ws| ==> 0.0 <= ws[i] < 1.0
    ensures AfterFailures(success, ws) <= ThrottleSuccess
  {
    FailureRunLowersSuccess(success, ws);
  }

  /** One success with a weight below 0.499 makes the record healthy again. */
  lemma SuccessAfterLongGapRestoresHealth(success: nat, w: real)
    requires 0.0 <= w <= 0.499
    ensures Blend(success, SampleSuccess, w) > ThrottleSuccess
  {
    MixTowardFull(success as real, w);
  }

  /** With weight at most 0.499 on the old score, a full sample pulls the blend past 501. */
  lemma MixTowardFull(x: real, w: real)
    requires x >= 0.0 && 0.0 <= w <= 0.499
    ensures Mix(x, 1000.0, w) >= 501.0
  {
    assert x * w >= 0.0;
  }

  /**
   * Truncation can stall recovery: when the blended gain
   * (1000 - success) * (1 - w) is below 1, a successful call leaves the score
   * where it was (for instance success 500 with w above 0.998, a gap under
   * about 20 ms between completions).
   */
  lemma SuccessRecoveryStalls(success: nat, w: real)
    requires success <= SampleSuccess && 0.0 <= w <= 1.0
    requires (1000.0 - success as real) * (1.0 - w) < 1.0
    ensures Blend(success, SampleSuccess, w) == success
  {
    MixSmallGain(success as real, w);
  }

  /** A blend towards 1000 that gains less than 1 stays within [x, x + 1). */
  lemma MixSmallGain(x: real, w: real)
    requires x <= 1000.0 && 0.0 <= w <= 1.0
    requires (1000.0 - x) * (1.0 - w) < 1.0
    ensures x <= Mix(x, 1000.0, w) < x + 1.0
  {
    assert Mix(x, 1000.0, w) == x + (1000.0 - x) * (1.0 - w);
  }

  /**
   * The completion callback returned with a pick: it captures the picked
   * record and the clock reading taken when it was built.
   */
  class DoneFunc {
    const s: SvrConn
    const start: int

    constructor (s: SvrConn, start: int)
      ensures this.s == s && this.start == start
    {
      this.s := s;
      this.start := start;
    }

    /**
     * Record a completed call at clock reading `now`; `failed` says whether
     * the call returned an error, decay(d) stands for exp(-d / 10 s).
     */
    method Call(now: int, failed: bool, decay: nat -> real)
      requires forall d :: 0.0 <= decay(d) <= 1.0
      modifies s
      ensures s.inflight == old(s.inflight) - 1
      ensures s.last == now
      ensures s.requests == old(s.requests) && s.pick == old(s.pick)
      ensures var w := Weight(old(s.lag), old(s.last), now, decay);
        s.lag == Blend(old(s.lag), Clamp(now - start), w) &&
        s.success == Blend(old(s.success), if failed then 0 else SampleSuccess, w)
      ensures old(s.lag) == 0 ==>
        s.lag == Clamp(now - start) && s.success == (if failed then 0 else SampleSuccess)
      ensures old(s.success) <= InitSuccess ==> s.success <= InitSuccess
    {
      s.inflight := s.inflight - 1;
      var prev := s.last;
      s.last := now;
      var td := now - prev;
      if td < 0 {
        td := 0;
      }
      var w := decay(td);
      var lag := now - start;
      if lag < 0 {
        lag := 0;
      }
      var olag := s.lag;
      if olag == 0 {
        w := 0.0;
      }
      s.lag := Blend(olag, lag, w);
      var success := SampleSuccess;
      if failed {
        success := 0;
      }
      var osucc := s.success;
      s.success := Blend(osucc, success, w);
    }
  }

  /*
   * The picker over one snapshot of the ready set.
   */

  datatype PickResult = ZeroResult | PickResult(subConn: SubConn, done: DoneFunc)

  /** What Build returns: a picker that always fails, or a p2c picker. */
  datatype BuiltPicker = ErrPicker(err: PickError) | P2C(p: Picker)

  /** The two indices a draw selects: the second is bumped past the first only when greater. */
  function Indices(d: Draw): (pair: (nat, nat))
    ensures pair.0 == d.a
    ensures pair.1 == d.a <==> d.b == d.a
  {
    (d.a, if d.b > d.a then d.b + 1 else d.b)
  }

  /** Both indices lie in [0, n) for draws a < n and b < n - 1. */
  lemma IndicesInRange(d: Draw, n: nat)
    requires d.a < n && d.b < n - 1
    ensures Indices(d).0 < n && Indices(d).1 < n
  {
  }

  predicate DrawsInRange(draws: seq<Draw>, n: nat)
  {
    forall k :: 0 <= k < |draws| ==> draws[k].a < n && draws[k].b < n - 1
  }

  class Picker {
    const conns: seq<SvrConn>

    constructor (conns: seq<SvrConn>)
      ensures this.conns == conns
    {
      this.conns := conns;
    }

    /** Every record of the snapshot is a distinct object. */
    ghost predicate DistinctRecords()
    {
      forall i, j :: 0 <= i < j < |conns| ==> conns[i] != conns[j]
    }

    predicate BothHealthy(pair: (nat, nat))
      requires pair.0 < |conns| && pair.1 < |conns|
      reads conns
    {
      conns[pair.0].Healthy() && conns[pair.1].Healthy()
    }

    /**
     * The pair the sampling loop settles on: the first drawn pair whose two
     * records are healthy, or else the last pair drawn.
     */
    function Sampled(draws: seq<Draw>): (pair: (nat, nat))
      requires |draws| >= 1 && DrawsInRange(draws, |conns|)
      reads conns
      ensures pair.0 < |conns| && pair.1 < |conns|
      ensures exists k :: 0 <= k < |draws| && pair == Indices(draws[k])
    {
      var pair := Indices(draws[0]);
      if |draws| == 1 || BothHealthy(pair) then pair
      else
        var rest := Sampled(draws[1..]);
        ghost var k :| 0 <= k < |draws[1..]| && rest == Indices(draws[1..][k]);
        assert draws[1..][k] == draws[k + 1];
        rest
    }

    /**
     * Sampled stops at the first healthy pair: the k-th draw is used only if
     * every earlier pair had an unhealthy record, and it is healthy itself
     * unless it is the last draw.
     */
    lemma {:induction false} SampledIsFirstHealthy(draws: seq<Draw>)
      requires |draws| >= 1 && DrawsInRange(draws, |conns|)
      ensures exists k :: (0 <= k < |draws| && Sampled(draws) == Indices(draws[k]) &&
                           (k == |draws| - 1 || BothHealthy(Indices(draws[k]))) &&
                           forall j :: 0 <= j < k ==> !BothHealthy(Indices(draws[j])))
    {
      var pair := Indices(draws[0]);
      if |draws| == 1 || BothHealthy(pair) {
        assert Sampled(draws) == Indices(draws[0]);
      } else {
        var rest := draws[1..];
        SampledIsFirstHealthy(rest);
        var k :| 0 <= k < |rest| && Sampled(rest) == Indices(rest[k]) &&
          (k == |rest| - 1 || BothHealthy(Indices(rest[k]))) &&
          forall j :: 0 <= j < k ==> !BothHealthy(Indices(rest[j]));
        assert rest[k] == draws[k + 1];
        forall j | 0 <= j < k + 1
          ensures !BothHealthy(Indices(draws[j]))
        {
          if j > 0 {
            assert draws[j] == rest[j - 1];
          }
        }
      }
    }

    /** The sampling loop of Pick for more than two records. */
    method SamplePair(draws: seq<Draw>) returns (a: nat, b: nat)
      requires |draws| == Attempts && DrawsInRange(draws, |conns|)
      ensures (a, b) == Sampled(draws)
    {
      a, b := 0, 0;
      var i := 0;
      while i < Attempts
        invariant 0 <= i <= Attempts
        invariant i < Attempts ==> Sampled(draws) == Sampled(draws[i..])
        invariant i == Attempts ==> (a, b) == Sampled(draws)
      {
        var pair := Indices(draws[i]);
        a, b := pair.0, pair.1;
        if conns[a].Healthy() && conns[b].Healthy() {
          break;
        }
        if i + 1 < Attempts {
          assert draws[i..][1..] == draws[i + 1..];
        }
        i := i + 1;
      }
    }

    /**
     * The tie-break: pick c1 when c2 is absent, otherwise Winner(c1, c2),
     * stamping the chosen record's pick time; the compare-and-swap that
     * claims an overdue record always succeeds in a sequential reading.
     */
    method Choose(c1: SvrConn, c2: SvrConn?, now: int) returns (chosen: SvrConn)
      modifies c1, c2
      ensures c2 == null ==> chosen == c1
      ensures c2 != null ==> chosen == old(Winner(c1, c2, now))
      ensures chosen.pick == now
      ensures chosen.lag == old(chosen.lag) && chosen.inflight == old(chosen.inflight)
      ensures chosen.success == old(chosen.success) && chosen.requests == old(chosen.requests)
      ensures chosen.last == old(chosen.last)
      ensures c1 != chosen ==> unchanged(c1)
      ensures c2 != null && c2 != chosen ==> unchanged(c2)
    {
      if c2 == null {
        c1.pick := now;
        return c1;
      }
      var lo, hi := c1, c2;
      if c1.Load() > c2.Load() {
        lo, hi := c2, c1;
      }
      var pick := hi.pick;
      if now - pick > ForcePick {
        hi.pick := now;
        return hi;
      }
      lo.pick := now;
      return lo;
    }

    /** The completion callback for record s, built at clock reading start. */
    method BuildDoneFunc(s: SvrConn, start: int) returns (done: DoneFunc)
      ensures fresh(done) && done.s == s && done.start == start
    {
      done := new DoneFunc(s, start);
    }

    /**
     * Pick a record for one call: `now` is the clock reading taken by the
     * tie-break, `start` the one captured by the completion callback, and
     * `draws` the random draws of the sampling loop.
     */
    method Pick(now: int, start: int, draws: seq<Draw>) returns (result: PickResult, err: Option<PickError>)
      requires |conns| > 2 ==> |draws| == Attempts && DrawsInRange(draws, |conns|)
      modifies conns
      ensures |conns| == 0 <==> err == Some(ErrNoSubConnAvailable)
      ensures |conns| == 0 ==> result == ZeroResult
      ensures |conns| > 0 ==> (err == None && result.PickResult? &&
                               fresh(result.done) && result.done.start == start &&
                               result.done.s in conns && result.subConn == result.done.s.conn)
      ensures |conns| == 1 ==> result.done.s == conns[0]
      ensures |conns| == 2 ==> result.done.s == old(Winner(conns[0], conns[1], now))
      ensures |conns| > 2 ==>
        result.done.s == old(var p := Sampled(draws); Winner(conns[p.0], conns[p.1], now))
      ensures result.PickResult? ==>
        var c := result.done.s;
        c.inflight == old(c.inflight) + 1 && c.requests == old(c.requests) + 1 &&
        c.pick == now && c.lag == old(c.lag) && c.success == old(c.success) && c.last == old(c.last)
      ensures forall c :: c in conns && (result.ZeroResult? || c != result.done.s) ==> unchanged(c)
    {
      var chosen: SvrConn;
      if |conns| == 0 {
        return ZeroResult, Some(ErrNoSubConnAvailable);
      } else if |conns| == 1 {
        chosen := Choose(conns[0], null, now);
      } else if |conns| == 2 {
        chosen := Choose(conns[0], conns[1], now);
      } else {
        var a, b := SamplePair(draws);
        chosen := Choose(conns[a], conns[b], now);
      }
      chosen.inflight := chosen.inflight + 1;
      chosen.requests := chosen.requests + 1;
      var done := BuildDoneFunc(chosen, start);
      result := PickResult(chosen.conn, done);
      err := None;
    }
  }

  /**
   * Build a picker from the ready set: an always-failing picker when it is
   * empty, otherwise one fresh record per ready connection, in the map's
   * (unspecified) iteration order.
   */
  method Build(ready: map<SubConn, Address>) returns (built: BuiltPicker)
    ensures |ready| == 0 <==> built == ErrPicker(ErrNoSubConnAvailable)
    ensures built.P2C? ==> fresh(built.p) && built.p.DistinctRecords() && |built.p.conns| == |ready|
    ensures built.P2C? ==> forall c :: c in built.p.conns ==>
      fresh(c) && c.Initial() && c.conn in ready && c.addr == ready[c.conn]
    ensures built.P2C? ==> forall k :: k in ready ==> exists c :: c in built.p.conns && c.conn == k
  {
    if |ready| == 0 {
      return ErrPicker(ErrNoSubConnAvailable);
    }
    var allConn: seq<SvrConn> := [];
    var remaining := ready.Keys;
    while remaining != {}
      invariant remaining <= ready.Keys
      invariant |allConn| + |remaining| == |ready|
      invariant forall i :: 0 <= i < |allConn| ==>
        fresh(allConn[i]) && allConn[i].Initial() && allConn[i].conn in ready &&
        allConn[i].conn !in remaining && allConn[i].addr == ready[allConn[i].conn]
      invariant forall i, j :: 0 <= i < j < |allConn| ==> allConn[i].conn != allConn[j].conn
      invariant forall k :: k in ready && k !in remaining ==>
        exists i :: 0 <= i < |allConn| && allConn[i].conn == k
      decreases |remaining|
    {
      var k :| k in remaining;
      var c := new SvrConn(k, ready[k]);
      var next := allConn + [c];
      forall k' | k' in ready && k' !in remaining - {k}
        ensures exists i :: 0 <= i < |next| && next[i].conn == k'
      {
        if k' == k {
          assert next[|allConn|].conn == k;
        } else {
          var i :| 0 <= i < |allConn| && allConn[i].conn == k';
          assert next[i] == allConn[i];
        }
      }
      allConn := next;
      remaining := remaining - {k};
    }
    var p := new Picker(allConn);
    built := P2C(p);
  }
}
