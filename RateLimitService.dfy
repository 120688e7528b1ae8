/** The service in front of the limiters: it normalises endpoints, resolves
    each endpoint's limits from the configuration, derives the client's
    identity from the request, keeps one limiter per endpoint, and builds the
    fail-safe result used when a check fails. */
module RateLimitService {
  import opened Optional
  import opened JavaStrings
  import opened Clock
  import opened RateLimitingStrategy
  import F = RateLimiterFactory
  import P = RateLimiterProperties
  import CR = ComputeRateLimiter
  import opened Sequences

  // ---------------------------------------------------------------------------
  // Configuration resolution

  /** The index of the first key in `order` that equals `normalized` once its
      slashes are removed: the entry the lookup loop stops at. */
  function FirstMatch(order: seq<string>, normalized: string): (r: Option<nat>)
    ensures r.Some? ==> r.value < |order| && RemoveAll(order[r.value], '/') == normalized
    ensures r.Some? ==> forall j | 0 <= j < r.value :: RemoveAll(order[j], '/') != normalized
    ensures r.None? <==> forall j | 0 <= j < |order| :: RemoveAll(order[j], '/') != normalized
  {
    if order == [] then None
    else if RemoveAll(order[0], '/') == normalized then Some(0)
    else match FirstMatch(order[1..], normalized)
      case None => None
      case Some(i) => Some(i + 1)
  }

  /** `order` lists every configured endpoint key once: the iteration order of
      the endpoint map, which the map itself leaves unspecified. */
  predicate EnumeratesKeys(order: seq<string>, keys: set<string>)
  {
    (forall k | k in order :: k in keys) &&
    (forall k | k in keys :: k in order) &&
    (forall i, j | 0 <= i < j < |order| :: order[i] != order[j])
  }

  /** The override the lookup loop finds for `endpoint` when it visits the keys
      in `order`: one whose key equals the endpoint once both lose their
      slashes, if there is any. */
  function MatchedSettings(endpoints: map<string, P.EndpointSettings>, order: seq<string>, endpoint: string): (r: Option<P.EndpointSettings>)
    requires forall k | k in order :: k in endpoints
    ensures r.Some? <==> exists k | k in order :: RemoveAll(k, '/') == RemoveAll(endpoint, '/')
    ensures r.Some? ==> exists k | k in order :: RemoveAll(k, '/') == RemoveAll(endpoint, '/') && r.value == endpoints[k]
  {
    match FirstMatch(order, RemoveAll(endpoint, '/'))
    case None => None
    case Some(i) => assert order[i] in order; Some(endpoints[order[i]])
  }

  /** The limit, window and algorithm a limiter is built with. */
  datatype Limits = Limits(maxRequests: int, timeWindowMs: int, algorithm: RateLimitingAlgorithm)

  function DefaultLimits(p: P.PropertyValues): Limits
  {
    Limits(p.defaultMaxRequests, p.defaultTimeWindowMs, p.defaultAlgorithm)
  }

  /** A matched, enabled override supplies all three settings; a missing or
      disabled one leaves all three at the defaults. */
  function Resolve(matched: Option<P.EndpointSettings>, defaults: Limits): (r: Limits)
    ensures matched.Some? && matched.value.enabled ==>
              r == Limits(matched.value.maxRequests, matched.value.timeWindowMs, matched.value.algorithm)
    ensures matched.None? || !matched.value.enabled ==> r == defaults
  {
    if matched.Some? && matched.value.enabled then
      Limits(matched.value.maxRequests, matched.value.timeWindowMs, matched.value.algorithm)
    else
      defaults
  }

  /** When at most one key matches the endpoint, the order the keys are visited
      in does not change the override found. */
  lemma OrderIrrelevantWhenUnambiguous(endpoints: map<string, P.EndpointSettings>, order1: seq<string>, order2: seq<string>, endpoint: string)
    requires EnumeratesKeys(order1, endpoints.Keys) && EnumeratesKeys(order2, endpoints.Keys)
    requires forall k1, k2 | k1 in endpoints && k2 in endpoints && RemoveAll(k1, '/') == RemoveAll(endpoint, '/') && RemoveAll(k2, '/') == RemoveAll(endpoint, '/') :: k1 == k2
    ensures MatchedSettings(endpoints, order1, endpoint) == MatchedSettings(endpoints, order2, endpoint)
  {
    var r1 := MatchedSettings(endpoints, order1, endpoint);
    var r2 := MatchedSettings(endpoints, order2, endpoint);
    if r1.Some? {
      var k1 :| k1 in order1 && RemoveAll(k1, '/') == RemoveAll(endpoint, '/') && r1.value == endpoints[k1];
      assert k1 in order2;
      var k2 :| k2 in order2 && RemoveAll(k2, '/') == RemoveAll(endpoint, '/') && r2.value == endpoints[k2];
    } else {
      forall k | k in order2
        ensures RemoveAll(k, '/') != RemoveAll(endpoint, '/')
      {
        assert k in order1;
      }
    }
  }

  /** Two keys that differ only in a leading slash (`/api/hello` and
      `api/hello`) both match, and then the iteration order decides which
      override is used. */
  lemma AmbiguousKeysDependOnOrder(key: string, a: P.EndpointSettings, b: P.EndpointSettings)
    ensures var endpoints := map["/" + key := a, key := b];
            MatchedSettings(endpoints, ["/" + key, key], "/" + key) == Some(a) &&
            MatchedSettings(endpoints, [key, "/" + key], "/" + key) == Some(b)
  {
    assert |"/" + key| != |key|;
    RemoveAllAppend("/", key, '/');
    assert RemoveAll("/", '/') == [];
  }

  /** The algorithm reported for an endpoint: its normalised form is looked up
      directly as a key, without normalising the keys. */
  function ReportedAlgorithm(endpoints: map<string, P.EndpointSettings>, defaultAlgorithm: RateLimitingAlgorithm, endpoint: string): RateLimitingAlgorithm
  {
    var normalized := RemoveAll(endpoint, '/');
    if normalized in endpoints && endpoints[normalized].enabled then endpoints[normalized].algorithm else defaultAlgorithm
  }

  /** When no configured key contains a slash, the reported algorithm is the one
      the endpoint's limiter is built with. */
  lemma ReportedMatchesBuiltWithoutSlashes(endpoints: map<string, P.EndpointSettings>, order: seq<string>, defaults: Limits, endpoint: string)
    requires EnumeratesKeys(order, endpoints.Keys)
    requires forall k | k in endpoints :: '/' !in k
    ensures ReportedAlgorithm(endpoints, defaults.algorithm, endpoint) == Resolve(MatchedSettings(endpoints, order, endpoint), defaults).algorithm
  {
    var normalized := RemoveAll(endpoint, '/');
    var matched := MatchedSettings(endpoints, order, endpoint);
    if matched.Some? {
      var k :| k in order && RemoveAll(k, '/') == normalized && matched.value == endpoints[k];
      assert RemoveAll(k, '/') == k;
    }
  }

  /** An endpoint configured under a key written with a slash, such as its
      request form `/api/hello`, is built with its own algorithm but reported
      with the default one. */
  lemma ReportedCanDisagreeWithBuilt(key: string, s: P.EndpointSettings, defaults: Limits)
    requires '/' in key
    requires s.enabled
    ensures var endpoints := map[key := s];
            Resolve(MatchedSettings(endpoints, [key], key), defaults).algorithm == s.algorithm &&
            ReportedAlgorithm(endpoints, defaults.algorithm, key) == defaults.algorithm
  {
    assert RemoveAll(key, '/') != key;
  }

  // ---------------------------------------------------------------------------
  // Client identity

  /** What the service reads of a request; header names are matched exactly. */
  datatype Request = Request(uri: string, headers: map<string, string>, remoteAddr: string)

  /** The proxy headers consulted for the client's address, in order. */
  const ProxyHeaders: seq<string> := ["X-Forwarded-For", "X-Real-IP", "X-Original-Forwarded-For", "Proxy-Client-IP", "WL-Proxy-Client-IP"]

  /** A header value is used when it is present, non-empty and not `unknown`
      in any case. */
  predicate Usable(value: Option<string>)
  {
    value.Some? && value.value != [] && !EqualsIgnoreCase("unknown", value.value)
  }

  /** The value of the first header in `names` that is usable. */
  function FirstUsable(headers: map<string, string>, names: seq<string>): (r: Option<string>)
    ensures r.Some? ==> Usable(r)
    ensures r.None? <==> forall i | 0 <= i < |names| :: !Usable(Get(headers, names[i]))
    ensures r.Some? ==> exists i | 0 <= i < |names| :: Get(headers, names[i]) == r && forall j | 0 <= j < i :: !Usable(Get(headers, names[j]))
  {
    if names == [] then None
    else if Usable(Get(headers, names[0])) then Get(headers, names[0])
    else
      var r := FirstUsable(headers, names[1..]);
      if r.Some? then
        var i :| 0 <= i < |names[1..]| && Get(headers, names[1..][i]) == r && forall j | 0 <= j < i :: !Usable(Get(headers, names[1..][j]));
        assert Get(headers, names[i + 1]) == r;
        r
      else
        r
  }

  /** A header value made only of commas, which has no first entry. */
  predicate OnlyCommas(value: string)
  {
    ',' in value && forall i | 0 <= i < |value| :: value[i] == ','
  }

  /** The identity taken from a usable header value: a comma-separated list
      gives its first entry, trimmed; a value made only of commas has no first
      entry, and the failure gives an `UNKNOWN_IP_` identity stamped with the
      host's clock. Any other identity is `IP_` and a text without commas. */
  function FromHeader(value: string, hostMillis: int): (r: string)
    ensures ',' !in value ==> r == "IP_" + value
    ensures OnlyCommas(value) ==> r == "UNKNOWN_IP_" + LongToString(hostMillis)
    ensures !OnlyCommas(value) ==> StartsWith(r, "IP_") && ',' !in r[3..]
  {
    if ',' in value then
      if forall i | 0 <= i < |value| :: value[i] == ',' then
        "UNKNOWN_IP_" + LongToString(hostMillis)
      else
        var first := Trim(BeforeFirst(value, ','));
        AddressIdentity(first);
        "IP_" + first
    else
      AddressIdentity(value);
      "IP_" + value
  }

  lemma AddressIdentity(address: string)
    ensures StartsWith("IP_" + address, "IP_") && ("IP_" + address)[3..] == address
  {
    PrefixExtends("IP_", address, []);
  }

  /** A list whose first entry is not empty gives that entry, trimmed. */
  lemma ListGivesFirstEntry(first: string, rest: string, hostMillis: int)
    requires first != [] && ',' !in first
    ensures FromHeader(first + "," + rest, hostMillis) == "IP_" + Trim(first)
  {
    BeforeFirstOfJoin(first, ',', rest);
    assert (first + "," + rest)[|first|] == ',';
    assert (first + "," + rest)[0] == first[0];
  }

  /** The address identity of a request: from the first usable proxy header,
      else from the connection's remote address. */
  function IpAddressOf(request: Request, hostMillis: int): (r: string)
    ensures StartsWith(r, "IP_") || StartsWith(r, "UNKNOWN_IP_")
  {
    match FirstUsable(request.headers, ProxyHeaders)
    case Some(value) =>
      PrefixExtends("UNKNOWN_IP_", LongToString(hostMillis), []);
      FromHeader(value, hostMillis)
    case None =>
      AddressIdentity(request.remoteAddr);
      "IP_" + request.remoteAddr
  }

  /** `extractIpAddress`: the headers are tried in order and the first usable
      one decides. */
  method ExtractIpAddress(request: Request, hostMillis: int) returns (ip: string)
    ensures ip == IpAddressOf(request, hostMillis)
  {
    var headers := ProxyHeaders;
    var i := 0;
    while i < |headers|
      invariant 0 <= i <= |headers|
      invariant FirstUsable(request.headers, headers) == FirstUsable(request.headers, headers[i..])
    {
      assert headers[i..][1..] == headers[i + 1..];
      var value := Get(request.headers, headers[i]);
      if Usable(value) {
        ip := FromHeader(value.value, hostMillis);
        return;
      }
      i := i + 1;
    }
    ip := "IP_" + request.remoteAddr;
  }

  /** A usable `X-Forwarded-For` header wins over every other source. */
  lemma ForwardedForWins(request: Request, hostMillis: int)
    requires Usable(Get(request.headers, "X-Forwarded-For"))
    ensures IpAddressOf(request, hostMillis) == FromHeader(request.headers["X-Forwarded-For"], hostMillis)
  {
    assert ProxyHeaders[0] == "X-Forwarded-For";
  }

  /** With no usable proxy header, the remote address is used. */
  lemma FallsBackToRemoteAddress(request: Request, hostMillis: int)
    requires forall h | h in ProxyHeaders :: !Usable(Get(request.headers, h))
    ensures IpAddressOf(request, hostMillis) == "IP_" + request.remoteAddr
  {
    assert forall i | 0 <= i < |ProxyHeaders| :: ProxyHeaders[i] in ProxyHeaders;
  }

  /** A forwarded list in `X-Forwarded-For` gives its first hop, trimmed. */
  lemma FirstHopOfForwardedList(request: Request, first: string, rest: string, hostMillis: int)
    requires first != [] && ',' !in first && !EqualsIgnoreCase("unknown", first + "," + rest)
    requires Get(request.headers, "X-Forwarded-For") == Some(first + "," + rest)
    ensures IpAddressOf(request, hostMillis) == "IP_" + Trim(first)
  {
    ForwardedForWins(request, hostMillis);
    ListGivesFirstEntry(first, rest, hostMillis);
  }

  /** A header value spelled `Unknown` is skipped. */
  lemma UnknownHeaderIsSkipped(hostMillis: int)
    ensures IpAddressOf(Request("/api/hello", map["X-Forwarded-For" := "Unknown"], "10.0.0.2"), hostMillis) == "IP_10.0.0.2"
  {
    assert EqualsIgnoreCase("unknown", "Unknown");
    FallsBackToRemoteAddress(Request("/api/hello", map["X-Forwarded-For" := "Unknown"], "10.0.0.2"), hostMillis);
  }

  /** The identity a request is limited under, by the configured strategy
      (compared ignoring case). A key or user header counts when it is
      non-blank after trimming, and is then used untrimmed; otherwise, and for
      an unknown strategy, the address identity is used. */
  function ClientIdOf(strategy: string, apiKeyHeader: string, userIdHeader: string, request: Request, hostMillis: int): (r: string)
    ensures var ip := IpAddressOf(request, hostMillis);
            var apiKey := Get(request.headers, apiKeyHeader);
            var userId := Get(request.headers, userIdHeader);
            var upper := ToUpper(strategy);
            (upper == "API_KEY" && Present(apiKey) ==> r == "API_" + apiKey.value) &&
            (upper == "COMBINED" && Present(apiKey) ==> r == "API_" + apiKey.value + "_IP_" + ip) &&
            (upper == "COMBINED" && !Present(apiKey) ==> r == "IP_" + ip) &&
            (upper == "USER_ID" && Present(userId) ==> r == "USER_" + userId.value) &&
            (upper != "COMBINED" && !(upper == "API_KEY" && Present(apiKey)) && !(upper == "USER_ID" && Present(userId)) ==> r == ip)
  {
    var ip := IpAddressOf(request, hostMillis);
    var apiKey := Get(request.headers, apiKeyHeader);
    var userId := Get(request.headers, userIdHeader);
    var upper := ToUpper(strategy);
    if upper == "IP_ADDRESS" then ip
    else if upper == "API_KEY" then
      if Present(apiKey) then "API_" + apiKey.value else ip
    else if upper == "COMBINED" then
      if Present(apiKey) then "API_" + apiKey.value + "_IP_" + ip else "IP_" + ip
    else if upper == "USER_ID" then
      if Present(userId) then "USER_" + userId.value else ip
    else ip
  }

  /** Whatever the strategy, the identity says which kind it is. */
  lemma IdentityKinds(strategy: string, apiKeyHeader: string, userIdHeader: string, request: Request, hostMillis: int)
    ensures var r := ClientIdOf(strategy, apiKeyHeader, userIdHeader, request, hostMillis);
            StartsWith(r, "API_") || StartsWith(r, "USER_") || StartsWith(r, "IP_") || StartsWith(r, "UNKNOWN_IP_")
  {
    var r := ClientIdOf(strategy, apiKeyHeader, userIdHeader, request, hostMillis);
    var ip := IpAddressOf(request, hostMillis);
    var apiKey := Get(request.headers, apiKeyHeader);
    var userId := Get(request.headers, userIdHeader);
    var upper := ToUpper(strategy);
    if upper == "API_KEY" && Present(apiKey) {
      KeepsPrefix("API_", apiKey.value, "");
    } else if upper == "COMBINED" && Present(apiKey) {
      KeepsPrefix("API_", apiKey.value, "_IP_" + ip);
    } else if upper == "COMBINED" {
      KeepsPrefix("IP_", ip, "");
    } else if upper == "USER_ID" && Present(userId) {
      KeepsPrefix("USER_", userId.value, "");
    }
  }

  /** Text built on a prefix starts with it. */
  lemma KeepsPrefix(p: string, x: string, y: string)
    ensures StartsWith(p + x + y, p) && StartsWith(p + x, p)
  {
    assert (p + x + y)[..|p|] == p;
    assert (p + x)[..|p|] == p;
  }

  predicate Present(value: Option<string>)
  {
    value.Some? && Trim(value.value) != []
  }

  /** The strategy name is compared ignoring case. */
  lemma StrategyNameIgnoresCase(a: string, b: string, apiKeyHeader: string, userIdHeader: string, request: Request, hostMillis: int)
    requires EqualsIgnoreCase(a, b)
    ensures ClientIdOf(a, apiKeyHeader, userIdHeader, request, hostMillis) == ClientIdOf(b, apiKeyHeader, userIdHeader, request, hostMillis)
  {
    SameUpperWhenEqualIgnoringCase(a, b);
  }

  /** An address identity starts with `I`, or with `UN`. */
  lemma AddressIdentityHead(ip: string)
    requires StartsWith(ip, "IP_") || StartsWith(ip, "UNKNOWN_IP_")
    ensures ip != [] && (ip[0] == 'I' || (ip[0] == 'U' && |ip| > 1 && ip[1] == 'N'))
  {
    if StartsWith(ip, "IP_") {
      assert ip[0] == ip[..3][0];
    } else {
      assert ip[0] == ip[..11][0] && ip[1] == ip[..11][1];
    }
  }

  /** A prefixed identity determines the value after its prefix. */
  lemma PrefixedIdentityInjective(prefix: string, a: string, b: string)
    ensures prefix + a == prefix + b <==> a == b
  {
    if prefix + a == prefix + b {
      assert (prefix + a)[|prefix|..] == a;
      assert (prefix + b)[|prefix|..] == b;
    }
  }

  /** Under `API_KEY` (in any case), a client with a key is limited under
      `API_` and its key, is never confused with one limited by address, and
      different keys are different clients. */
  lemma KeyedClientsAreSeparate(strategy: string, apiKeyHeader: string, userIdHeader: string, keyed: Request, other: Request, hostMillis: int)
    requires ToUpper(strategy) == "API_KEY"
    requires Present(Get(keyed.headers, apiKeyHeader))
    ensures var id := ClientIdOf(strategy, apiKeyHeader, userIdHeader, keyed, hostMillis);
            var otherId := ClientIdOf(strategy, apiKeyHeader, userIdHeader, other, hostMillis);
            id == "API_" + keyed.headers[apiKeyHeader] &&
            (id == otherId <==> Present(Get(other.headers, apiKeyHeader)) && other.headers[apiKeyHeader] == keyed.headers[apiKeyHeader])
  {
    var id := ClientIdOf(strategy, apiKeyHeader, userIdHeader, keyed, hostMillis);
    var otherId := ClientIdOf(strategy, apiKeyHeader, userIdHeader, other, hostMillis);
    if Present(Get(other.headers, apiKeyHeader)) {
      PrefixedIdentityInjective("API_", keyed.headers[apiKeyHeader], other.headers[apiKeyHeader]);
    } else {
      AddressIdentityHead(IpAddressOf(other, hostMillis));
      assert id[0] == 'A';
    }
  }

  /** Under `USER_ID` (in any case), a client with a user header is limited
      under `USER_` and the value as given, is never confused with one limited
      by address, and different users are different clients. */
  lemma UserClientsAreSeparate(strategy: string, apiKeyHeader: string, userIdHeader: string, user: Request, other: Request, hostMillis: int)
    requires ToUpper(strategy) == "USER_ID"
    requires Present(Get(user.headers, userIdHeader))
    ensures var id := ClientIdOf(strategy, apiKeyHeader, userIdHeader, user, hostMillis);
            var otherId := ClientIdOf(strategy, apiKeyHeader, userIdHeader, other, hostMillis);
            id == "USER_" + user.headers[userIdHeader] &&
            (id == otherId <==> Present(Get(other.headers, userIdHeader)) && other.headers[userIdHeader] == user.headers[userIdHeader])
  {
    var id := ClientIdOf(strategy, apiKeyHeader, userIdHeader, user, hostMillis);
    var otherId := ClientIdOf(strategy, apiKeyHeader, userIdHeader, other, hostMillis);
    if Present(Get(other.headers, userIdHeader)) {
      PrefixedIdentityInjective("USER_", user.headers[userIdHeader], other.headers[userIdHeader]);
    } else {
      AddressIdentityHead(IpAddressOf(other, hostMillis));
      assert id[0] == 'U' && id[1] == 'S';
    }
  }

  /** `COMBINED` (in any case) prefixes the address identity, which already
      carries `IP_`, a second time: `API_k_IP_IP_…` with a key and `IP_IP_…`
      without one. */
  lemma CombinedRepeatsAddressPrefix(strategy: string, apiKeyHeader: string, userIdHeader: string, request: Request, hostMillis: int)
    requires ToUpper(strategy) == "COMBINED"
    ensures var id := ClientIdOf(strategy, apiKeyHeader, userIdHeader, request, hostMillis);
            var key := Get(request.headers, apiKeyHeader);
            (Present(key) ==> StartsWith(id, "API_" + key.value + "_IP_" + "IP_") || StartsWith(id, "API_" + key.value + "_IP_" + "UNKNOWN_IP_")) &&
            (!Present(key) ==> StartsWith(id, "IP_" + "IP_") || StartsWith(id, "IP_" + "UNKNOWN_IP_"))
  {
    var ip := IpAddressOf(request, hostMillis);
    var key := Get(request.headers, apiKeyHeader);
    if Present(key) {
      var head := "API_" + key.value + "_IP_";
      assert ClientIdOf(strategy, apiKeyHeader, userIdHeader, request, hostMillis) == head + ip;
      DoubledAddressPrefix(head, ip);
    } else {
      DoubledAddressPrefix("IP_", ip);
    }
  }

  lemma DoubledAddressPrefix(head: string, ip: string)
    requires StartsWith(ip, "IP_") || StartsWith(ip, "UNKNOWN_IP_")
    ensures StartsWith(head + ip, head + "IP_") || StartsWith(head + ip, head + "UNKNOWN_IP_")
  {
    if StartsWith(ip, "IP_") {
      PrefixExtends(head, ip, "IP_");
    } else {
      PrefixExtends(head, ip, "UNKNOWN_IP_");
    }
  }

  /** An unrecognised strategy name limits by address. */
  lemma UnknownStrategyUsesAddress(strategy: string, apiKeyHeader: string, userIdHeader: string, request: Request, hostMillis: int)
    requires ToUpper(strategy) !in {"IP_ADDRESS", "API_KEY", "COMBINED", "USER_ID"}
    ensures ClientIdOf(strategy, apiKeyHeader, userIdHeader, request, hostMillis) == IpAddressOf(request, hostMillis)
  {
  }

  // ---------------------------------------------------------------------------
  // Results

  /** The outcome of a check, as reported to the caller. */
  datatype RateLimitResult = RateLimitResult(allowed: bool, remainingRequests: int, algorithm: string, clientId: string, endpoint: string)

  /** The result used when a check fails: it reports no remaining count (-1)
      and the error kind in place of the algorithm, and admits the request
      exactly when the fail-safe setting reads `ALLOW` in any case; an unset
      setting denies. */
  function CreateFailSafeResult(failSafeStrategy: Option<string>, clientId: string, endpoint: string, errorType: string): (r: RateLimitResult)
    ensures r.remainingRequests == -1 && r.algorithm == errorType
    ensures r.clientId == clientId && r.endpoint == endpoint
    ensures r.allowed <==> failSafeStrategy.Some? && EqualsIgnoreCase("ALLOW", failSafeStrategy.value)
    ensures failSafeStrategy.None? ==> !r.allowed
  {
    var allowed := failSafeStrategy.Some? && EqualsIgnoreCase("ALLOW", failSafeStrategy.value);
    RateLimitResult(allowed, -1, errorType, clientId, endpoint)
  }

  /** `allow` and `Allow` admit; `DENY` and no setting deny. */
  lemma FailSafeSettings(clientId: string, endpoint: string)
    ensures CreateFailSafeResult(Some("allow"), clientId, endpoint, "ERROR").allowed
    ensures CreateFailSafeResult(Some("Allow"), clientId, endpoint, "ERROR").allowed
    ensures !CreateFailSafeResult(Some("DENY"), clientId, endpoint, "ERROR").allowed
    ensures !CreateFailSafeResult(None, clientId, endpoint, "ERROR").allowed
  {
    assert EqualsIgnoreCase("ALLOW", "allow");
    assert EqualsIgnoreCase("ALLOW", "Allow");
  }

  // ---------------------------------------------------------------------------
  // The service

  class RateLimitService {
    const properties: P.RateLimiterProperties
    /** One limiter per request URI, as first seen. */
    var endpointLimiters: map<string, Strategy>
    var normalizedEndpointCache: map<string, string>
    /** The service and every limiter it holds, with their per-client records. */
    ghost var Repr: set<object>

    /** Every cached entry is its key with the slashes removed; every registered
        limiter is valid and owned, and no two share an object; the
        configuration is not among the objects the service changes. */
    ghost predicate Valid()
      reads this, Repr
    {
      this in Repr && properties !in Repr &&
      (forall e | e in normalizedEndpointCache :: normalizedEndpointCache[e] == RemoveAll(e, '/')) &&
      (forall e | e in endpointLimiters :: Owns(endpointLimiters[e])) &&
      (forall a, b | a in endpointLimiters && b in endpointLimiters && a != b ::
         endpointLimiters[a].Object() in Repr && endpointLimiters[b].Object() in Repr ==>
         endpointLimiters[a].Repr() !! endpointLimiters[b].Repr())
    }

    /** The limiter is valid and its objects belong to this service alone. */
    ghost predicate Owns(limiter: Strategy)
      reads this`Repr, Repr - {this}
    {
      limiter.Object() in Repr - {this} && limiter.Repr() <= Repr && this !in limiter.Repr() && limiter.Valid()
    }

    /** The limits an endpoint's limiter is built with when the configured keys
        are visited in `order`. */
    ghost function LimitsFor(endpoint: string, order: seq<string>): Limits
      reads properties, properties.endpoints.Values
      requires EnumeratesKeys(order, properties.endpoints.Keys)
    {
      Resolve(MatchedSettings(P.EndpointValues(properties.endpoints), order, endpoint), DefaultLimits(properties.Settings()))
    }

    constructor (properties: P.RateLimiterProperties)
      ensures Valid()
      ensures this.properties == properties
      ensures endpointLimiters == map[] && normalizedEndpointCache == map[]
      ensures fresh(Repr)
    {
      this.properties := properties;
      endpointLimiters := map[];
      normalizedEndpointCache := map[];
      Repr := {this};
    }

    /** `getNormalizedEndpoint`: the endpoint without its slashes, computed once
        and cached. */
    method GetNormalizedEndpoint(endpoint: string) returns (normalized: string)
      requires Valid()
      modifies this`normalizedEndpointCache
      ensures Valid()
      ensures normalized == RemoveAll(endpoint, '/')
      ensures normalizedEndpointCache == old(normalizedEndpointCache)[endpoint := normalized]
      ensures endpointLimiters == old(endpointLimiters) && Repr == old(Repr)
    {
      if endpoint in normalizedEndpointCache {
        normalized := normalizedEndpointCache[endpoint];
      } else {
        normalized := RemoveAll(endpoint, '/');
        normalizedEndpointCache := normalizedEndpointCache[endpoint := normalized];
      }
    }

    /** The lookup loop over the configured entries, visited in `order`: it
        stops at the first key whose slash-free form is `normalized`. */
    method MatchConfig(normalized: string, order: seq<string>) returns (matched: Option<P.EndpointConfig>)
      requires EnumeratesKeys(order, properties.endpoints.Keys)
      ensures matched.Some? <==> FirstMatch(order, normalized).Some?
      ensures matched.Some? ==> matched.value == properties.endpoints[order[FirstMatch(order, normalized).value]]
    {
      var i := 0;
      while i < |order|
        invariant 0 <= i <= |order|
        invariant forall j | 0 <= j < i :: RemoveAll(order[j], '/') != normalized
      {
        var key := order[i];
        if RemoveAll(key, '/') == normalized {
          assert FirstMatch(order, normalized) == Some(i) by {
            FirstMatchIsEarliest(order, normalized, i);
          }
          return Some(properties.endpoints[key]);
        }
        i := i + 1;
      }
      return None;
    }

    /** `getMaxRequestsForEndpoint`: the limit the endpoint's limiter is built
        with. */
    method GetMaxRequestsForEndpoint(endpoint: string, order: seq<string>) returns (maxRequests: int)
      requires Valid() && EnumeratesKeys(order, properties.endpoints.Keys)
      modifies this`normalizedEndpointCache
      ensures Valid()
      ensures maxRequests == old(LimitsFor(endpoint, order)).maxRequests
      ensures normalizedEndpointCache == old(normalizedEndpointCache)[endpoint := RemoveAll(endpoint, '/')]
      ensures endpointLimiters == old(endpointLimiters) && Repr == old(Repr)
    {
      var normalized := GetNormalizedEndpoint(endpoint);
      var config := MatchConfig(normalized, order);
      if config.Some? && config.value.enabled {
        maxRequests := config.value.maxRequests;
      } else {
        maxRequests := properties.defaultMaxRequests;
      }
    }

    /** `getAlgorithmForEndpoint`: the algorithm reported for an endpoint, by a
        direct lookup of its slash-free form. */
    method GetAlgorithmForEndpoint(endpoint: string) returns (algorithm: RateLimitingAlgorithm)
      requires Valid()
      modifies this`normalizedEndpointCache
      ensures Valid()
      ensures algorithm == old(ReportedAlgorithm(P.EndpointValues(properties.endpoints), properties.defaultAlgorithm, endpoint))
      ensures normalizedEndpointCache == old(normalizedEndpointCache)[endpoint := RemoveAll(endpoint, '/')]
      ensures endpointLimiters == old(endpointLimiters) && Repr == old(Repr)
    {
      var normalized := GetNormalizedEndpoint(endpoint);
      if normalized in properties.endpoints && properties.endpoints[normalized].enabled {
        algorithm := properties.endpoints[normalized].algorithm;
      } else {
        algorithm := properties.defaultAlgorithm;
      }
    }

    /** `createRateLimiterForEndpoint`: a new limiter, on the wall clock, with
        the endpoint's resolved limits. */
    method CreateRateLimiterForEndpoint(endpoint: string, order: seq<string>) returns (limiter: Strategy)
      requires Valid() && EnumeratesKeys(order, properties.endpoints.Keys)
      modifies this`normalizedEndpointCache
      ensures Valid()
      ensures var limits := old(LimitsFor(endpoint, order));
              limiter.Algorithm() == limits.algorithm &&
              limiter.MaxRequests() == limits.maxRequests &&
              limiter.TimeWindowMillis() == limits.timeWindowMs
      ensures limiter.Clock() == SystemTimeProvider
      ensures fresh(limiter.Repr()) && limiter.Valid() && limiter.Unused()
      ensures normalizedEndpointCache == old(normalizedEndpointCache)[endpoint := RemoveAll(endpoint, '/')]
      ensures endpointLimiters == old(endpointLimiters) && Repr == old(Repr)
    {
      var normalized := GetNormalizedEndpoint(endpoint);
      var matched := MatchConfig(normalized, order);
      var maxRequests, timeWindowMs, algorithm;
      if matched.Some? && matched.value.enabled {
        maxRequests, timeWindowMs, algorithm := matched.value.maxRequests, matched.value.timeWindowMs, matched.value.algorithm;
      } else {
        maxRequests, timeWindowMs, algorithm := properties.defaultMaxRequests, properties.defaultTimeWindowMs, properties.defaultAlgorithm;
      }
      var factory := F.WithSystemClock(algorithm, F.Configuration(maxRequests, timeWindowMs));
      limiter := F.CreateStrategy(factory);
    }

    /** `getRateLimiterForEndpoint`: the limiter registered under the request
        URI, created and registered on first use. */
    method GetRateLimiterForEndpoint(endpoint: string, order: seq<string>) returns (limiter: Strategy)
      requires Valid() && EnumeratesKeys(order, properties.endpoints.Keys)
      modifies this
      ensures Valid() && fresh(Repr - old(Repr))
      ensures endpoint in endpointLimiters && endpointLimiters[endpoint] == limiter
      ensures limiter.Valid() && limiter.Repr() <= Repr && this !in limiter.Repr()
      ensures endpoint in old(endpointLimiters) ==>
                limiter == old(endpointLimiters)[endpoint] &&
                endpointLimiters == old(endpointLimiters) &&
                normalizedEndpointCache == old(normalizedEndpointCache) &&
                Repr == old(Repr)
      ensures endpoint !in old(endpointLimiters) ==>
                endpointLimiters == old(endpointLimiters)[endpoint := limiter] &&
                normalizedEndpointCache == old(normalizedEndpointCache)[endpoint := RemoveAll(endpoint, '/')] &&
                fresh(limiter.Repr()) && limiter.Unused() &&
                var limits := old(LimitsFor(endpoint, order));
                limiter.Algorithm() == limits.algorithm &&
                limiter.MaxRequests() == limits.maxRequests &&
                limiter.TimeWindowMillis() == limits.timeWindowMs
      // the limiters already registered keep their state
      ensures forall e | e in old(endpointLimiters) :: endpointLimiters[e].State() == old(endpointLimiters[e].State())
    {
      if endpoint in endpointLimiters {
        limiter := endpointLimiters[endpoint];
      } else {
        limiter := CreateRateLimiterForEndpoint(endpoint, order);
        ghost var created := limiter.Repr();
        Register(endpoint, limiter);
        assert Repr == old(Repr) + created;
      }
    }

    /** Puts a new limiter, owned by nobody yet, under the endpoint. */
    method Register(endpoint: string, limiter: Strategy)
      requires Valid() && endpoint !in endpointLimiters
      requires limiter.Valid() && limiter.Repr() !! Repr
      modifies this
      ensures Valid()
      ensures endpointLimiters == old(endpointLimiters)[endpoint := limiter]
      ensures normalizedEndpointCache == old(normalizedEndpointCache)
      ensures limiter.Repr() == old(limiter.Repr()) && Repr == old(Repr) + limiter.Repr()
    {
      endpointLimiters := endpointLimiters[endpoint := limiter];
      Repr := Repr + limiter.Repr();
    }

    /** Steps 3 and 4 of `checkRateLimit`: the limiter registered under the
        request URI, created on first use, decides the request by its own rule
        and moves to its next state; no other limiter changes. A limiter
        created now starts from the initial state of its algorithm, so it
        admits the first request exactly when its limit is positive, or
        whatever the limit for the fixed window. */
    method AllowRequestFor(endpoint: string, clientId: string, now: int, order: seq<string>) returns (allowed: bool)
      requires Valid() && EnumeratesKeys(order, properties.endpoints.Keys)
      modifies Repr
      ensures Valid() && fresh(Repr - old(Repr))
      ensures endpoint in endpointLimiters
      ensures endpointLimiters == old(endpointLimiters)[endpoint := endpointLimiters[endpoint]]
      ensures endpoint in old(endpointLimiters) ==>
                endpointLimiters[endpoint] == old(endpointLimiters[endpoint]) &&
                (allowed, endpointLimiters[endpoint].State()) == old(endpointLimiters[endpoint].Next(clientId, now))
      ensures endpoint !in old(endpointLimiters) ==>
                var limits := old(LimitsFor(endpoint, order));
                var limiter := endpointLimiters[endpoint];
                limiter.Algorithm() == limits.algorithm &&
                limiter.MaxRequests() == limits.maxRequests &&
                limiter.TimeWindowMillis() == limits.timeWindowMs &&
                (allowed, limiter.State()) == Transit(Initial(limits.algorithm), clientId, now, limits.maxRequests, limits.timeWindowMs) &&
                (allowed <==> limits.maxRequests >= 1 || limits.algorithm == FixedWindow)
      ensures forall e | e in old(endpointLimiters) && e != endpoint ::
                endpointLimiters[e].State() == old(endpointLimiters[e].State())
    {
      ghost var created := endpoint !in endpointLimiters;
      var limiter := GetRateLimiterForEndpoint(endpoint, order);
      if created {
        FirstDecision(limiter, clientId, now);
      }
      allowed := Decide(endpoint, limiter, clientId, now);
    }

    /** The registered limiter decides and moves to its next state; the other
        limiters keep theirs, and the service keeps owning whatever records the
        limiter creates. */
    method Decide(endpoint: string, limiter: Strategy, clientId: string, now: int) returns (allowed: bool)
      requires Valid() && endpoint in endpointLimiters && endpointLimiters[endpoint] == limiter
      modifies Repr
      ensures Valid() && fresh(Repr - old(Repr))
      ensures endpointLimiters == old(endpointLimiters)
      ensures (allowed, limiter.State()) == old(limiter.Next(clientId, now))
      ensures forall e | e in endpointLimiters && e != endpoint ::
                endpointLimiters[e].State() == old(endpointLimiters[e].State())
    {
      label Looked:
      allowed := limiter.Decide(clientId, now);
      // the other limiters lie outside what the call changed
      forall e | e in endpointLimiters && e != endpoint
        ensures endpointLimiters[e].Repr() == old@Looked(endpointLimiters[e].Repr())
        ensures Owns(endpointLimiters[e]) && endpointLimiters[e].Repr() !! limiter.Repr()
      {
        var other := endpointLimiters[e];
        assert old@Looked(other.Repr()) !! old@Looked(limiter.Repr());
        assert other.Repr() == old@Looked(other.Repr());
      }
      forall e | e in endpointLimiters && e != endpoint
        ensures endpointLimiters[e].State() == old@Looked(endpointLimiters[e].State())
      {
      }
      Adopt(endpoint, limiter);
    }

    /** Takes the records a registered limiter has just created into the
        service's objects. */
    method Adopt(endpoint: string, limiter: Strategy)
      requires endpoint in endpointLimiters && endpointLimiters[endpoint] == limiter
      requires this in Repr && properties !in Repr && limiter.Object() in Repr
      requires this !in limiter.Repr() && properties !in limiter.Repr() && limiter.Valid()
      requires forall e | e in normalizedEndpointCache :: normalizedEndpointCache[e] == RemoveAll(e, '/')
      requires forall e | e in endpointLimiters && e != endpoint ::
                 Owns(endpointLimiters[e]) && endpointLimiters[e].Repr() !! limiter.Repr()
      requires forall a, b | a in endpointLimiters && b in endpointLimiters && a != b && a != endpoint && b != endpoint ::
                 endpointLimiters[a].Repr() !! endpointLimiters[b].Repr()
      modifies this`Repr
      ensures Valid() && Repr == old(Repr) + limiter.Repr()
    {
      Repr := Repr + limiter.Repr();
      assert Owns(limiter);
      forall e | e in endpointLimiters && e != endpoint
        ensures Owns(endpointLimiters[e])
      {
      }
    }

    /** `checkRateLimit`'s lookup and decision for a sequence of calls to one
        request URI: the calls receive the decisions the endpoint's limiter
        gives by its own rule from the state it held, or, for a URI not seen
        before, from the initial state of the algorithm it is configured with.
        The remaining-count call each check makes after its decision is taken
        to read the same `now`, at which it leaves every limiter as it is. */
    method Serve(endpoint: string, calls: seq<CR.Call>, order: seq<string>) returns (decisions: seq<bool>)
      requires Valid() && EnumeratesKeys(order, properties.endpoints.Keys)
      modifies Repr
      ensures Valid() && fresh(Repr - old(Repr))
      ensures endpoint in old(endpointLimiters) ==>
                decisions == old(endpointLimiters[endpoint].Upcoming(calls))
      ensures endpoint !in old(endpointLimiters) ==>
                var limits := old(LimitsFor(endpoint, order));
                decisions == Replay(Initial(limits.algorithm), calls, limits.maxRequests, limits.timeWindowMs)
    {
      if endpoint in endpointLimiters || calls == [] {
        decisions := ServeRegistered(endpoint, calls, order);
      } else {
        // the first call creates the limiter
        var first := AllowRequestFor(endpoint, calls[0].clientId, calls[0].time, order);
        var rest := ServeRegistered(endpoint, calls[1..], order);
        decisions := [first] + rest;
      }
    }

    /** The calls to a URI whose limiter exists receive, one after another,
        the decisions of that limiter's transitions. */
    method ServeRegistered(endpoint: string, calls: seq<CR.Call>, order: seq<string>) returns (decisions: seq<bool>)
      requires Valid() && EnumeratesKeys(order, properties.endpoints.Keys)
      requires endpoint in endpointLimiters || calls == []
      modifies Repr
      ensures Valid() && fresh(Repr - old(Repr))
      ensures endpointLimiters.Keys == old(endpointLimiters.Keys)
      ensures endpoint in endpointLimiters ==>
                decisions == old(endpointLimiters[endpoint].Upcoming(calls))
      ensures calls == [] ==> decisions == []
      decreases |calls|
    {
      if calls == [] {
        return [];
      }
      var first := AllowRequestFor(endpoint, calls[0].clientId, calls[0].time, order);
      var rest := ServeRegistered(endpoint, calls[1..], order);
      decisions := [first] + rest;
    }

    /** `resetRateLimitForClient`: the client is reset on the limiter registered
        under exactly this URI, if there is one (a limiter of one of the three
        strategies whose `reset` is part of this model). */
    method ResetRateLimitForClient(clientId: string, endpoint: string)
      requires Valid() && (endpoint in endpointLimiters ==> !endpointLimiters[endpoint].Fixed?)
      modifies if endpoint in endpointLimiters then {endpointLimiters[endpoint].Object()} else {}
      ensures Valid()
      ensures endpoint in endpointLimiters ==>
                var s := endpointLimiters[endpoint];
                (s.Sliding? ==> s.sliding.clientTimestamps == old(s.sliding.clientTimestamps) - {clientId}) &&
                (s.Leaky? ==> s.leaky.clientBuckets == old(s.leaky.clientBuckets) - {clientId}) &&
                (s.Token? ==> s.token.clientBuckets == old(s.token.clientBuckets) - {clientId})
    {
      if endpoint in endpointLimiters {
        var limiter := endpointLimiters[endpoint];
        limiter.Reset(clientId);
        // the other limiters lie outside the one reset
        forall e | e in endpointLimiters && e != endpoint
          ensures endpointLimiters[e].Repr() == old(endpointLimiters[e].Repr())
          ensures Owns(endpointLimiters[e])
        {
          assert old(endpointLimiters[e].Repr()) !! old(limiter.Repr());
        }
        assert Owns(limiter);
      }
    }
  }

  /** An index whose key matches, with no earlier match, is the first match. */
  lemma {:induction false} FirstMatchIsEarliest(order: seq<string>, normalized: string, i: nat)
    requires i < |order| && RemoveAll(order[i], '/') == normalized
    requires forall j | 0 <= j < i :: RemoveAll(order[j], '/') != normalized
    ensures FirstMatch(order, normalized) == Some(i)
  {
    if i > 0 {
      FirstMatchIsEarliest(order[1..], normalized, i - 1);
    }
  }

  /** The integration scenarios on a URI whose limiter is a fixed window with
      limit 10, in use for the first time: a client making eleven requests
      inside the window its first request opens has the first ten admitted and
      the eleventh denied, and another client's single request is admitted,
      whatever the order in which the two clients' requests arrive. */
  method FixedWindowOfTenScenario(service: RateLimitService, endpoint: string, calls: seq<CR.Call>, a: string, b: string, order: seq<string>)
    returns (decisions: seq<bool>)
    requires service.Valid() && EnumeratesKeys(order, service.properties.endpoints.Keys)
    requires endpoint !in service.endpointLimiters
    requires var limits := service.LimitsFor(endpoint, order);
             limits.algorithm == FixedWindow && limits.maxRequests == 10
    requires var times := CR.TimesOf(calls, a); |times| == 11 && CR.AllInWindow(times, times[0], service.LimitsFor(endpoint, order).timeWindowMs)
    requires |CR.TimesOf(calls, b)| == 1
    modifies service.Repr
    ensures |decisions| == |calls|
    ensures CR.DecisionsOf(calls, decisions, a) == Repeat(true, 10) + [false]
    ensures CR.DecisionsOf(calls, decisions, b) == [true]
  {
    ghost var window := service.LimitsFor(endpoint, order).timeWindowMs;
    decisions := service.Serve(endpoint, calls, order);
    FixedWindowBurstPerClient(calls, a, 10, window);
    assert Repeat(false, 1) == [false];
    ghost var tb := CR.TimesOf(calls, b);
    assert CR.AllInWindow(tb, tb[0], window);
    FixedWindowBurstPerClient(calls, b, 10, window);
    assert Repeat(true, 1) == [true];
  }

  /** A URI's limiter is created once: a second lookup returns the same limiter
      and registers nothing new. */
  method SameLimiterOnSecondLookup(service: RateLimitService, endpoint: string, order: seq<string>)
    returns (first: Strategy, second: Strategy)
    requires service.Valid() && EnumeratesKeys(order, service.properties.endpoints.Keys)
    modifies service
    ensures first == second
    ensures endpoint in service.endpointLimiters && service.endpointLimiters[endpoint] == first
    ensures service.endpointLimiters.Keys == old(service.endpointLimiters.Keys) + {endpoint}
  {
    first := service.GetRateLimiterForEndpoint(endpoint, order);
    second := service.GetRateLimiterForEndpoint(endpoint, order);
  }
}
