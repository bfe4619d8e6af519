/** Per-client fixed-window request counting. Each bucket key (a client
    address) has a window: when it started and how many requests it has let
    through. The current time is an input; the concurrent map's atomic
    `compute` is one map update. */
module RateLimiter {

  /** The rate-limit settings. `limit` and `windowSeconds` are bounded by the
      configuration's validation annotations; see `ValidConfig`. */
  datatype RateLimitConfig = RateLimitConfig(enabled: bool, limit: int, windowSeconds: int, excludePaths: seq<string>)

  const DefaultConfig := RateLimitConfig(true, 100, 60, ["/api/v1/health"])

  /** `limit` in 1..10000 and `windowSeconds` in 1..3600. */
  predicate ValidConfig(c: RateLimitConfig)
  {
    1 <= c.limit <= 10000 && 1 <= c.windowSeconds <= 3600
  }

  datatype Window = Window(startMillis: int, count: int)

  type Windows = map<string, Window>

  /** Whether the call was allowed, and the windows after it. */
  datatype Consumed = Consumed(allowed: bool, windows: Windows)

  function WindowDurationMillis(c: RateLimitConfig): int
  {
    c.windowSeconds * 1000
  }

  /** Whether the window stored for `key`, if any, still covers `now`. */
  predicate InWindow(c: RateLimitConfig, windows: Windows, key: string, now: int)
  {
    key in windows && now - windows[key].startMillis < WindowDurationMillis(c)
  }

  /** `tryConsume(bucketKey)` at time `now`. */
  function TryConsume(c: RateLimitConfig, windows: Windows, key: string, now: int): (r: Consumed)
    ensures !c.enabled ==> r == Consumed(true, windows)
    // a missing or expired window restarts at `now` with this call counted
    ensures c.enabled && !InWindow(c, windows, key, now) ==> r == Consumed(true, windows[key := Window(now, 1)])
    // a full window refuses and is left as it is
    ensures c.enabled && InWindow(c, windows, key, now) && windows[key].count >= c.limit ==> r == Consumed(false, windows)
    // otherwise the call is counted in the same window
    ensures c.enabled && InWindow(c, windows, key, now) && windows[key].count < c.limit
            ==> r == Consumed(true, windows[key := Window(windows[key].startMillis, windows[key].count + 1)])
    // no other bucket is touched
    ensures r.windows - {key} == windows - {key}
  {
    if !c.enabled then Consumed(true, windows)
    else if key !in windows || now - windows[key].startMillis >= WindowDurationMillis(c) then
      Consumed(true, windows[key := Window(now, 1)])
    else if windows[key].count >= c.limit then
      Consumed(false, windows)
    else
      Consumed(true, windows[key := Window(windows[key].startMillis, windows[key].count + 1)])
  }

  /** Every stored window has counted at least one and at most `limit` calls. */
  ghost predicate CountsBounded(c: RateLimitConfig, windows: Windows)
  {
    forall k :: k in windows ==> 1 <= windows[k].count <= c.limit
  }

  /** The bound is kept by every call, so with a valid configuration a
      stored count stays at most 10000 and `count + 1` never overflows an
      `Int`. */
  lemma CountsStayBounded(c: RateLimitConfig, windows: Windows, key: string, now: int)
    requires c.limit >= 1
    requires CountsBounded(c, windows)
    ensures CountsBounded(c, TryConsume(c, windows, key, now).windows)
    ensures ValidConfig(c) ==> forall k :: k in TryConsume(c, windows, key, now).windows ==>
              TryConsume(c, windows, key, now).windows[k].count < 0x7fff_ffff
  {
  }

  /** The results of consuming for one key at each of `times`, in order. */
  datatype Tally = Tally(allowed: nat, windows: Windows)

  function ConsumeAll(c: RateLimitConfig, windows: Windows, key: string, times: seq<int>): Tally
    decreases |times|
  {
    if times == [] then Tally(0, windows)
    else
      var first := TryConsume(c, windows, key, times[0]);
      var rest := ConsumeAll(c, first.windows, key, times[1..]);
      Tally(rest.allowed + (if first.allowed then 1 else 0), rest.windows)
  }

  /** Inside one window, calls are allowed only until the window's count
      reaches the limit, and the window keeps its start. */
  lemma {:induction false} QuotaWithinWindow(c: RateLimitConfig, windows: Windows, key: string, times: seq<int>)
    requires c.enabled
    requires key in windows && windows[key].count <= c.limit
    requires forall i :: 0 <= i < |times| ==> times[i] - windows[key].startMillis < WindowDurationMillis(c)
    ensures var t := ConsumeAll(c, windows, key, times);
            && t.allowed <= c.limit - windows[key].count
            && key in t.windows
            && t.windows[key] == Window(windows[key].startMillis, windows[key].count + t.allowed)
    decreases |times|
  {
    if times != [] {
      var first := TryConsume(c, windows, key, times[0]);
      assert InWindow(c, windows, key, times[0]);
      assert first.windows[key].startMillis == windows[key].startMillis;
      QuotaWithinWindow(c, first.windows, key, times[1..]);
    }
  }

  /** From a fresh or expired window, at most `limit` calls for one key are
      allowed during the window the first of them opens. */
  lemma AtMostLimitPerWindow(c: RateLimitConfig, windows: Windows, key: string, first: int, later: seq<int>)
    requires c.enabled && c.limit >= 1
    requires !InWindow(c, windows, key, first)
    requires forall i :: 0 <= i < |later| ==> later[i] - first < WindowDurationMillis(c)
    ensures ConsumeAll(c, windows, key, [first] + later).allowed <= c.limit
  {
    var w1 := TryConsume(c, windows, key, first).windows;
    assert ([first] + later)[1..] == later;
    QuotaWithinWindow(c, w1, key, later);
  }

  /** A limit of 2 lets two calls through and refuses the third. */
  lemma LimitOfTwo(windows: Windows, now: int)
    requires "ip1" !in windows
    ensures var c := RateLimitConfig(true, 2, 60, []);
            var r1 := TryConsume(c, windows, "ip1", now);
            var r2 := TryConsume(c, r1.windows, "ip1", now);
            var r3 := TryConsume(c, r2.windows, "ip1", now);
            r1.allowed && r2.allowed && !r3.allowed
  {
  }
}
