/** The limiter's configuration: defaults for the limit, the window and the
    algorithm, how clients are identified, and per-endpoint overrides. Every
    setter changes its own setting and nothing else. */
module RateLimiterProperties {
  import opened RateLimitingStrategy

  /** One endpoint's override, as values. */
  datatype EndpointSettings = EndpointSettings(maxRequests: int, timeWindowMs: int, algorithm: RateLimitingAlgorithm, enabled: bool)

  class EndpointConfig {
    var maxRequests: int
    var timeWindowMs: int
    var algorithm: RateLimitingAlgorithm
    var enabled: bool

    function Settings(): EndpointSettings
      reads this
    {
      EndpointSettings(maxRequests, timeWindowMs, algorithm, enabled)
    }

    /** An override starts at 100 requests per 60000 ms, fixed window, enabled. */
    constructor ()
      ensures Settings() == EndpointSettings(100, 60000, FixedWindow, true)
    {
      maxRequests := 100;
      timeWindowMs := 60000;
      algorithm := FixedWindow;
      enabled := true;
    }

    method SetMaxRequests(maxRequests: int)
      modifies this
      ensures Settings() == old(Settings()).(maxRequests := maxRequests)
    {
      this.maxRequests := maxRequests;
    }

    method SetTimeWindowMs(timeWindowMs: int)
      modifies this
      ensures Settings() == old(Settings()).(timeWindowMs := timeWindowMs)
    {
      this.timeWindowMs := timeWindowMs;
    }

    method SetAlgorithm(algorithm: RateLimitingAlgorithm)
      modifies this
      ensures Settings() == old(Settings()).(algorithm := algorithm)
    {
      this.algorithm := algorithm;
    }

    method SetEnabled(enabled: bool)
      modifies this
      ensures Settings() == old(Settings()).(enabled := enabled)
    {
      this.enabled := enabled;
    }
  }

  /** The top-level settings, as values (the overrides stay objects). */
  datatype PropertyValues = PropertyValues(
    defaultMaxRequests: int,
    defaultTimeWindowMs: int,
    defaultAlgorithm: RateLimitingAlgorithm,
    clientIdStrategy: string,
    apiKeyHeader: string,
    userIdHeader: string,
    endpoints: map<string, EndpointConfig>)

  /** The overrides' values, by endpoint key. */
  function EndpointValues(endpoints: map<string, EndpointConfig>): (r: map<string, EndpointSettings>)
    reads endpoints.Values
    ensures r.Keys == endpoints.Keys
    ensures forall k | k in endpoints :: r[k] == endpoints[k].Settings()
  {
    map k | k in endpoints :: endpoints[k].Settings()
  }

  class RateLimiterProperties {
    var defaultMaxRequests: int
    var defaultTimeWindowMs: int
    var defaultAlgorithm: RateLimitingAlgorithm
    var clientIdStrategy: string
    var apiKeyHeader: string
    var userIdHeader: string
    var endpoints: map<string, EndpointConfig>

    function Settings(): PropertyValues
      reads this
    {
      PropertyValues(defaultMaxRequests, defaultTimeWindowMs, defaultAlgorithm, clientIdStrategy, apiKeyHeader, userIdHeader, endpoints)
    }

    /** 100 requests per 60000 ms, fixed window; clients identified by IP
        address, with `X-API-Key` and `X-User-ID` as the key and user headers;
        no endpoint overrides. */
    constructor ()
      ensures Settings() == PropertyValues(100, 60000, FixedWindow, "IP_ADDRESS", "X-API-Key", "X-User-ID", map[])
    {
      defaultMaxRequests := 100;
      defaultTimeWindowMs := 60000;
      defaultAlgorithm := FixedWindow;
      clientIdStrategy := "IP_ADDRESS";
      apiKeyHeader := "X-API-Key";
      userIdHeader := "X-User-ID";
      endpoints := map[];
    }

    method SetDefaultMaxRequests(defaultMaxRequests: int)
      modifies this
      ensures Settings() == old(Settings()).(defaultMaxRequests := defaultMaxRequests)
    {
      this.defaultMaxRequests := defaultMaxRequests;
    }

    method SetDefaultTimeWindowMs(defaultTimeWindowMs: int)
      modifies this
      ensures Settings() == old(Settings()).(defaultTimeWindowMs := defaultTimeWindowMs)
    {
      this.defaultTimeWindowMs := defaultTimeWindowMs;
    }

    method SetDefaultAlgorithm(defaultAlgorithm: RateLimitingAlgorithm)
      modifies this
      ensures Settings() == old(Settings()).(defaultAlgorithm := defaultAlgorithm)
    {
      this.defaultAlgorithm := defaultAlgorithm;
    }

    method SetClientIdStrategy(clientIdStrategy: string)
      modifies this
      ensures Settings() == old(Settings()).(clientIdStrategy := clientIdStrategy)
    {
      this.clientIdStrategy := clientIdStrategy;
    }

    method SetApiKeyHeader(apiKeyHeader: string)
      modifies this
      ensures Settings() == old(Settings()).(apiKeyHeader := apiKeyHeader)
    {
      this.apiKeyHeader := apiKeyHeader;
    }

    method SetUserIdHeader(userIdHeader: string)
      modifies this
      ensures Settings() == old(Settings()).(userIdHeader := userIdHeader)
    {
      this.userIdHeader := userIdHeader;
    }

    method SetEndpoints(endpoints: map<string, EndpointConfig>)
      modifies this
      ensures Settings() == old(Settings()).(endpoints := endpoints)
    {
      this.endpoints := endpoints;
    }
  }
}
