/** The request filter in front of the API: requests on excluded paths pass
    freely, all others are counted against the client's window and refused
    with status 429 once it is full. */
module RateLimitFilter {
  import opened Options
  import opened Text
  import opened ErrorResponses
  import opened RateLimiter

  /** The parts of a request the filter reads. `remoteAddress` is the host
      string the server reports for the connection. */
  datatype Request = Request(
    path: Option<string>,
    forwardedFor: Option<string>,
    realIp: Option<string>,
    remoteAddress: string)

  datatype FilterResult = Proceed | Respond(status: int, body: ErrorResponse)

  /** The filter's answer and the limiter's windows after it. */
  datatype Filtered = Filtered(result: FilterResult, windows: Windows)

  const TooManyRequests: int := 429
  const RateLimitExceeded := ErrorResponse("RATE_001", "Rate limit exceeded", Some("Too many requests. Please try again later."))

  /** The wildcard suffix of an exclusion entry: a slash and two asterisks. */
  const Wildcard := "/" + "**"

  /** One exclusion entry: the path itself, or, for an entry ending in the
      wildcard, every path that starts with the entry minus the wildcard. The
      test is on raw characters, not on path segments. */
  function MatchesExclusion(path: string, entry: string): (b: bool)
    ensures !EndsWith(entry, Wildcard) ==> (b <==> path == entry)
    ensures EndsWith(entry, Wildcard) ==>
              (b <==> path == entry
                      || (|entry| - |Wildcard| <= |path| && path[..|entry| - |Wildcard|] == entry[..|entry| - |Wildcard|]))
  {
    path == entry || (EndsWith(entry, Wildcard) && StartsWith(path, RemoveSuffix(entry, Wildcard)))
  }

  /** `excludePaths.any { ... }`. */
  function IsExcluded(path: string, entries: seq<string>): (b: bool)
    ensures b <==> exists i :: 0 <= i < |entries| && MatchesExclusion(path, entries[i])
  {
    if entries == [] then false
    else MatchesExclusion(path, entries[0]) || IsExcluded(path, entries[1..])
  }

  /** `resolveClientIp`: the first element of `X-Forwarded-For`, then
      `X-Real-IP`, then the connection's address. A present forwarded header
      always decides, even when its first element trims to nothing. */
  function ResolveClientIp(req: Request): (ip: string)
    ensures req.forwardedFor.Some? ==> ip == Trim(BeforeFirst(req.forwardedFor.value, ','))
    ensures req.forwardedFor.Some? ==> ',' !in ip
    ensures req.forwardedFor.None? && req.realIp.Some? ==> ip == Trim(req.realIp.value)
    ensures req.forwardedFor.None? && req.realIp.None? ==> ip == req.remoteAddress
  {
    if req.forwardedFor.Some? then
      Trim(BeforeFirst(req.forwardedFor.value, ','))
    else if req.realIp.Some? then Trim(req.realIp.value)
    else req.remoteAddress
  }

  /** A present `X-Forwarded-For` header makes `X-Real-IP` irrelevant, and
      clients that differ only after the first comma share one bucket. */
  lemma ForwardedForWins(req: Request, realIp: Option<string>, tail: string)
    requires req.forwardedFor.Some?
    ensures ResolveClientIp(req.(realIp := realIp)) == ResolveClientIp(req)
    ensures ResolveClientIp(req.(forwardedFor := Some(req.forwardedFor.value + "," + tail)))
         == ResolveClientIp(req.(forwardedFor := Some(BeforeFirst(req.forwardedFor.value, ','))))
  {
    var f := req.forwardedFor.value;
    var b := BeforeFirst(f, ',');
    BeforeFirstOfLonger(f, tail);
    BeforeFirstNoSep(b);
  }

  /** `doFilter` at time `now`. */
  function DoFilter(c: RateLimitConfig, windows: Windows, req: Request, now: int): (r: Filtered)
    ensures !c.enabled ==> r == Filtered(Proceed, windows)
    ensures c.enabled && IsExcluded(req.path.GetOr(""), c.excludePaths) ==> r == Filtered(Proceed, windows)
    ensures r.result.Respond? ==> r.result == Respond(TooManyRequests, RateLimitExceeded) && r.windows == windows
    ensures c.enabled && !IsExcluded(req.path.GetOr(""), c.excludePaths) ==>
              r.windows == TryConsume(c, windows, ResolveClientIp(req), now).windows
              && (r.result.Proceed? <==> TryConsume(c, windows, ResolveClientIp(req), now).allowed)
  {
    if !c.enabled then Filtered(Proceed, windows)
    else
      var path := req.path.GetOr("");
      if IsExcluded(path, c.excludePaths) then Filtered(Proceed, windows)
      else
        var consumed := TryConsume(c, windows, ResolveClientIp(req), now);
        if !consumed.allowed then Filtered(Respond(TooManyRequests, RateLimitExceeded), consumed.windows)
        else Filtered(Proceed, consumed.windows)
  }

  /** With the default settings the health endpoint is never counted. */
  lemma HealthIsFree(windows: Windows, req: Request, now: int)
    requires req.path == Some("/api/v1/health")
    ensures DoFilter(DefaultConfig, windows, req, now) == Filtered(Proceed, windows)
  {
    assert MatchesExclusion("/api/v1/health", DefaultConfig.excludePaths[0]);
  }

  /** The wildcard form is a plain prefix test: "/api" with the wildcard
      also exempts "/apiary", and an entry without the wildcard exempts only
      itself. */
  lemma ExclusionIsRawPrefix()
    ensures IsExcluded("/apiary", ["/api" + Wildcard])
    ensures IsExcluded("/api/v1/add", ["/api" + Wildcard])
    ensures !IsExcluded("/api/v1/health/deep", ["/api/v1/health"])
  {
    assert StartsWith("/apiary", RemoveSuffix("/api" + Wildcard, Wildcard));
    assert StartsWith("/api/v1/add", RemoveSuffix("/api" + Wildcard, Wildcard));
    assert !MatchesExclusion("/api/v1/health/deep", "/api/v1/health") by {
      var e := "/api/v1/health";
      assert e[|e| - 3..][2] == 'h' != Wildcard[2];
    }
  }

  /** Refusals carry the rate-limit code and a details text. */
  lemma RefusalBody(c: RateLimitConfig, windows: Windows, req: Request, now: int)
    requires DoFilter(c, windows, req, now).result.Respond?
    ensures DoFilter(c, windows, req, now).result.body.errorCode == "RATE_001"
    ensures DoFilter(c, windows, req, now).result.body.details.Some?
    ensures c.enabled && !TryConsume(c, windows, ResolveClientIp(req), now).allowed
  {
  }
}
