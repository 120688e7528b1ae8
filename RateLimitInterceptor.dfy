/** The web interceptor in front of every request: some paths are never
    limited; for the rest, the service's result decides, and a failing check
    lets the request through. */
module RateLimitInterceptor {
  import opened Optional
  import opened JavaStrings
  import S = RateLimitService

  /** The exact paths, and the prefixes, that are never limited. */
  const SKIPPED_PATHS: seq<string> := ["/health", "/ping", "/favicon.ico"]
  const SKIPPED_PREFIXES: seq<string> := ["/actuator/", "/static/", "/css/", "/js/", "/images/"]

  /** The paths that are never limited: actuator endpoints under
      `/actuator/`, the health and ping checks, static resources and the
      favicon. */
  predicate ShouldSkipRateLimiting(uri: string): (r: bool)
    ensures r <==> uri in SKIPPED_PATHS || exists prefix | prefix in SKIPPED_PREFIXES :: StartsWith(uri, prefix)
    ensures r ==> StartsWith(uri, "/") && |uri| >= 4
  {
    StartsWith(uri, "/actuator/") ||
    uri == "/health" || uri == "/ping" ||
    StartsWith(uri, "/static/") || StartsWith(uri, "/css/") || StartsWith(uri, "/js/") || StartsWith(uri, "/images/") ||
    uri == "/favicon.ico"
  }

  /** Every skipped path starts with `/` and a letter from `a`, `c`, `f`,
      `h`, `i`, `j`, `p` or `s`, so an API path under `/api/` is always
      limited, as is `/actuator` itself. */
  lemma ApiPathsAreLimited(uri: string)
    requires StartsWith(uri, "/api/") || uri == "/actuator"
    ensures !ShouldSkipRateLimiting(uri)
  {
    if StartsWith(uri, "/api/") {
      assert uri[..5] == "/api/";
      assert uri[1] == 'a' && uri[2] == 'p';
      DiffersAt(uri, "/actuator/", 2);
      DiffersAt(uri, "/static/", 1);
      DiffersAt(uri, "/css/", 1);
      DiffersAt(uri, "/js/", 1);
      DiffersAt(uri, "/images/", 1);
      assert uri != "/health" && uri != "/ping" && uri != "/favicon.ico" by {
        assert "/health"[1] == 'h' && "/ping"[1] == 'p' && "/favicon.ico"[1] == 'f';
      }
    } else {
      assert uri[1] == 'a';
      DiffersAt(uri, "/static/", 1);
      DiffersAt(uri, "/css/", 1);
      DiffersAt(uri, "/js/", 1);
      DiffersAt(uri, "/images/", 1);
    }
  }

  /** A string that differs from `prefix` at some position does not start
      with it. */
  lemma DiffersAt(s: string, prefix: string, i: nat)
    requires i < |s| && i < |prefix| && s[i] != prefix[i]
    ensures !StartsWith(s, prefix)
  {
  }

  /** Paths below the skipped prefixes are skipped, whatever follows. */
  lemma SkippedPrefixes(rest: string)
    ensures ShouldSkipRateLimiting("/actuator/" + rest)
    ensures ShouldSkipRateLimiting("/static/" + rest)
    ensures ShouldSkipRateLimiting("/css/" + rest)
    ensures ShouldSkipRateLimiting("/js/" + rest)
    ensures ShouldSkipRateLimiting("/images/" + rest)
  {
    PrefixExtends("/actuator/", rest, []);
    PrefixExtends("/static/", rest, []);
    PrefixExtends("/css/", rest, []);
    PrefixExtends("/js/", rest, []);
    PrefixExtends("/images/", rest, []);
  }

  /** Which step after a completed check threw inside the `try`: none, the
      header writes, or the 429 response (`handleRateLimitExceeded`, which
      sets the status before it serialises and writes the body). */
  datatype Failure = NoFailure | HeadersFailed | ResponseFailed

  /** Everything the `try` of `preHandle` did for a request that is not
      skipped: `checkRateLimit` threw, or it returned a result and the later
      steps threw at the given point or not at all. A response failure only
      matters for a denied result, the only one that writes a response. */
  datatype CheckOutcome = Threw | Checked(result: S.RateLimitResult, failed: Failure)

  /** What `preHandle` does: whether the request proceeds, and the status
      written on the response, if any. */
  datatype Decision = Decision(proceed: bool, status: Option<int>)

  const TOO_MANY_REQUESTS: int := 429

  /** `preHandle`: a skipped path proceeds without a check; otherwise an
      allowed result proceeds and a denied one is answered with 429 and
      stopped. Whatever throws inside the `try` lets the request through; a
      denial whose response body fails to write has already set 429. */
  function PreHandle(uri: string, check: CheckOutcome): (d: Decision)
    // stopped exactly when a checked denial is written out without error
    ensures !d.proceed <==>
              !ShouldSkipRateLimiting(uri) && check.Checked? && !check.result.allowed && check.failed.NoFailure?
    // 429 is set exactly when a checked denial gets past the header writes
    ensures d.status == Some(TOO_MANY_REQUESTS) <==>
              !ShouldSkipRateLimiting(uri) && check.Checked? && !check.result.allowed && !check.failed.HeadersFailed?
    ensures d.status == None || d.status == Some(TOO_MANY_REQUESTS)
  {
    if ShouldSkipRateLimiting(uri) then Decision(true, None)
    else match check
      case Threw => Decision(true, None)
      case Checked(result, failed) =>
        if failed.HeadersFailed? || result.allowed then Decision(true, None)
        else if failed.ResponseFailed? then Decision(true, Some(TOO_MANY_REQUESTS))
        else Decision(false, Some(TOO_MANY_REQUESTS))
  }

  /** A skipped path proceeds whatever the check would have said. */
  lemma SkippedPathIgnoresCheck(uri: string, a: CheckOutcome, b: CheckOutcome)
    requires ShouldSkipRateLimiting(uri)
    ensures PreHandle(uri, a) == PreHandle(uri, b) == Decision(true, None)
  {
  }

  /** The service's own fail-safe result, with no fail-safe setting, blocks
      an API request with 429, while a check that throws past the service
      lets it through: errors caught by the service fail closed, errors that
      reach the interceptor fail open. */
  lemma ServiceFailsClosedInterceptorFailsOpen(uri: string, clientId: string, errorType: string)
    requires StartsWith(uri, "/api/")
    ensures PreHandle(uri, Checked(S.CreateFailSafeResult(None, clientId, uri, errorType), NoFailure)) == Decision(false, Some(429))
    ensures PreHandle(uri, Threw) == Decision(true, None)
    // the same denial proceeds, with 429 already set, when its body fails to write
    ensures PreHandle(uri, Checked(S.CreateFailSafeResult(None, clientId, uri, errorType), ResponseFailed)) == Decision(true, Some(429))
  {
    ApiPathsAreLimited(uri);
  }
}
