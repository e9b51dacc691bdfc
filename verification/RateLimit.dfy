/** `RateLimitTransform` of `stream.utils.ts`, over readings of a clock that may round and timers that
    may fire early by it. */
module RateLimit {

  /** What the surroundings add around one item: the wait for the item after the previous one left,
      by how much a sleep differs from what was asked, and the time spent before the second reading
      of the clock. */
  datatype Delays = Delays(idle: real, drift: real, lag: real)

  /** Time goes on, and no sleep is more than `early` milliseconds short by the clock. */
  predicate Forward(d: Delays, early: real) {
    d.idle >= 0.0 && d.drift >= -early && d.lag >= 0.0
  }

  /** The least time `items` may take at the limit: `(count / rateLimit) * 1000`. */
  function Cost(rateLimit: real, items: nat): (ms: real)
    requires rateLimit > 0.0
  {
    items as real / rateLimit * 1000.0
  }

  lemma CostAdd(rateLimit: real, a: nat, b: nat)
    requires rateLimit > 0.0
    ensures Cost(rateLimit, a) + Cost(rateLimit, b) == Cost(rateLimit, a + b)
  {
    var x, y := a as real / rateLimit, b as real / rateLimit;
    assert (a + b) as real / rateLimit == x + y;
  }

  /** Taking at least `Cost` is the same as keeping the rate. */
  lemma CostIsRate(rateLimit: real, items: nat, span: real)
    requires rateLimit > 0.0
    ensures span >= Cost(rateLimit, items) <==> items as real * 1000.0 <= rateLimit * span
  {
    var x := items as real / rateLimit;
    assert rateLimit * x == items as real;
    assert rateLimit * (x * 1000.0) == items as real * 1000.0;
    var gap := span - x * 1000.0;
    assert rateLimit * span == items as real * 1000.0 + rateLimit * gap;
    assert gap >= 0.0 <==> rateLimit * gap >= 0.0;
  }

  /** What a number of windows may lose in all. */
  function Loss(early: real, windows: nat): (ms: real) {
    early * windows as real
  }

  lemma LossNext(early: real, windows: nat)
    ensures Loss(early, windows) + early == Loss(early, windows + 1)
  {
  }

  /** Windows are at least a second long, so that a span holds no more than so many. */
  lemma LossInSpan(early: real, windows: nat, span: real)
    requires early >= 0.0 && windows as real * 1000.0 <= span
    ensures Loss(early, windows) <= early * (span / 1000.0)
  {
    var gap := span / 1000.0 - windows as real;
    assert gap >= 0.0;
    assert early * (span / 1000.0) == Loss(early, windows) + early * gap;
  }

  /** Items take at least what they cost, less `early` once and once for each second of the span. */
  predicate Paced(rateLimit: real, early: real, items: nat, span: real)
    requires rateLimit > 0.0
  {
    span + early * (1.0 + span / 1000.0) >= Cost(rateLimit, items)
  }

  /** The bounds of the open window and of those before it make one bound. */
  lemma WindowsPaced(rateLimit: real, early: real, before: nat, inside: nat, windows: nat, past: real, open: real)
    requires rateLimit > 0.0 && early >= 0.0 && open >= 0.0
    requires past >= windows as real * 1000.0 && past >= Cost(rateLimit, before) - Loss(early, windows)
    requires open >= Cost(rateLimit, inside) - early
    ensures Paced(rateLimit, early, before + inside, past + open)
    ensures past + open >= Cost(rateLimit, before + inside) - Loss(early, windows + 1)
  {
    CostAdd(rateLimit, before, inside);
    LossNext(early, windows);
    LossInSpan(early, windows, past + open);
    var part := (past + open) / 1000.0;
    assert early * (1.0 + part) == early + early * part;
  }

  lemma LaterIsPaced(rateLimit: real, early: real, items: nat, span: real, lag: real)
    requires rateLimit > 0.0 && early >= 0.0 && lag >= 0.0 && Paced(rateLimit, early, items, span)
    ensures Paced(rateLimit, early, items, span + lag)
  {
    var was, more := 1.0 + span / 1000.0, lag / 1000.0;
    assert 1.0 + (span + lag) / 1000.0 == was + more;
    assert early * (was + more) == early * was + early * more;
    assert early * more >= 0.0;
  }

  class RateLimitTransform {
    const rateLimit: real
    const early: real
    var count: nat
    var windowStart: real
    ghost var started: real
    ghost var passed: nat
    ghost var windows: nat  // windows that have ended
    var clock: real  // the time of the last departure

    /** The bound holds inside the window and for all windows before it, but for what each may lose. */
    ghost predicate Valid()
      reads this
    {
      && rateLimit > 0.0 && early >= 0.0
      && started <= windowStart <= clock
      && count <= passed
      && clock - windowStart >= Cost(rateLimit, count) - early
      && windowStart - started >= Cost(rateLimit, passed - count) - Loss(early, windows)
      && windowStart - started >= windows as real * 1000.0
    }

    constructor (rateLimit: real, early: real, now: real)
      requires rateLimit > 0.0 && early >= 0.0
      ensures Valid() && started == clock == now && passed == windows == 0
      ensures this.rateLimit == rateLimit && this.early == early
    {
      this.rateLimit, this.early := rateLimit, early;
      count, windowStart := 0, now;
      started, passed, windows, clock := now, 0, 0, now;
    }

    method Transform(d: Delays) returns (leaves: real)
      requires Valid() && Forward(d, early)
      modifies this
      ensures Valid() && started == old(started) && passed == old(passed) + 1
      ensures clock == leaves >= old(clock) + d.idle
      ensures Paced(rateLimit, early, passed, leaves - started)
    {
      var now := clock + d.idle;
      count := count + 1;
      passed := passed + 1;
      var elapsed := now - windowStart;
      var expectedTime := Cost(rateLimit, count);
      leaves := now;
      if expectedTime > elapsed {
        var delay := expectedTime - elapsed + d.drift;
        leaves := if delay > 0.0 then now + delay else now;
      }
      ghost var past := windowStart - started;
      WindowsPaced(rateLimit, early, passed - count, count, windows, past, leaves - windowStart);
      if elapsed >= 1000.0 {
        LaterIsPaced(rateLimit, early, passed, leaves - started, d.lag);
        leaves := leaves + d.lag;
        count := 0;
        windowStart := leaves;
        windows := windows + 1;
      }
      clock := leaves;
    }
  }

  /** A whole stream: the departures, in order, each after its item's arrival and, but for what the
      clock loses, no earlier than the limit lets that many items through. */
  method Departures(rateLimit: real, early: real, start: real, arrivals: seq<Delays>) returns (departures: seq<real>)
    requires rateLimit > 0.0 && early >= 0.0
    requires forall d :: d in arrivals ==> Forward(d, early)
    ensures |departures| == |arrivals|
    ensures forall k :: 0 <= k < |departures| ==> Paced(rateLimit, early, k + 1, departures[k] - start)
    ensures forall k :: 0 < k < |departures| ==> departures[k - 1] + arrivals[k].idle <= departures[k]
  {
    var transform := new RateLimitTransform(rateLimit, early, start);
    departures := [];
    for i := 0 to |arrivals|
      invariant fresh(transform) && transform.Valid() && transform.early == early
      invariant transform.rateLimit == rateLimit && transform.started == start
      invariant transform.passed == |departures| == i
      invariant i > 0 ==> transform.clock == departures[i - 1]
      invariant forall k :: 0 <= k < i ==> Paced(rateLimit, early, k + 1, departures[k] - start)
      invariant forall k :: 0 < k < i ==> departures[k - 1] + arrivals[k].idle <= departures[k]
    {
      var leaves := transform.Transform(arrivals[i]);
      departures := departures + [leaves];
    }
  }

  /** The bound as a rate, across any number of window resets: by the time the k-th item leaves, at most
      `rateLimit` items a second have passed since the stream was made, where timers that fire at
      most `early` milliseconds short by the clock add that much to the span, once and once for each
      second of it. With an exact clock the limit is exact. */
  method Throttle(rateLimit: real, early: real, start: real, arrivals: seq<Delays>) returns (departures: seq<real>)
    requires rateLimit > 0.0 && early >= 0.0
    requires forall d :: d in arrivals ==> Forward(d, early)
    ensures |departures| == |arrivals|
    ensures forall k :: 0 <= k < |departures| ==>
              var span := departures[k] - start;
              (k + 1) as real * 1000.0 <= rateLimit * (span + early * (1.0 + span / 1000.0))
    ensures early == 0.0 ==> forall k :: 0 <= k < |departures| ==>
              (k + 1) as real * 1000.0 <= rateLimit * (departures[k] - start)
  {
    departures := Departures(rateLimit, early, start, arrivals);
    forall k | 0 <= k < |departures|
      ensures var span := departures[k] - start;
              (k + 1) as real * 1000.0 <= rateLimit * (span + early * (1.0 + span / 1000.0))
      ensures early == 0.0 ==> (k + 1) as real * 1000.0 <= rateLimit * (departures[k] - start)
    {
      var span := departures[k] - start;
      CostIsRate(rateLimit, k + 1, span + early * (1.0 + span / 1000.0));
      CostIsRate(rateLimit, k + 1, span);
    }
  }
}
