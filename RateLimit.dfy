/**
 * Global rate limiting: which requests are exempt, how the client address is
 * taken from proxy headers, how the per-tenant key and capacity are composed,
 * the token bucket kept per key by the local provider, and the filter's
 * 429 (RFC 6585 section 4) answer with Retry-After (RFC 9110 section 10.2.3).
 */
module RateLimiting {
  import opened Wrappers
  import opened JavaStrings
  import opened Http

  /** The proxy headers consulted, in order. */
  const IpHeaders: seq<string> := [
    "X-Forwarded-For", "Proxy-Client-IP", "WL-Proxy-Client-IP", "HTTP_CLIENT_IP", "HTTP_X_FORWARDED_FOR"]

  const AnonymousSite := "anonymous"
  const RemainingHeader := "X-Rate-Limit-Remaining"
  const RetryAfterHeader := "Retry-After"
  const NanosPerSecond := 1_000_000_000
  const NanosPerMilli := 1_000_000
  /** Bucket levels are kept in 1/60000 of a token, so one millisecond of refill is exact. */
  const RefillPeriodMillis := 60_000

  /** The rate-limit settings: default capacity, per-site overrides and exemptions. */
  datatype RateLimitConfig = RateLimitConfig(
    capacity: int,
    perTenantCapacities: map<string, int>,
    excludedPaths: seq<string>,
    excludedExtensions: seq<string>)

  // ---------------------------------------------------------------- exemptions

  /** shouldSkipRateLimit: OPTIONS in any case, or a lower-cased URI with an excluded prefix or suffix. */
  predicate ShouldSkip(cfg: RateLimitConfig, req: Request) {
    EqualsIgnoreCase("OPTIONS", req.httpMethod)
    || (exists i :: 0 <= i < |cfg.excludedPaths| && StartsWith(ToLower(req.uri), cfg.excludedPaths[i]))
    || (exists i :: 0 <= i < |cfg.excludedExtensions| && EndsWith(ToLower(req.uri), cfg.excludedExtensions[i]))
  }

  /** Exemption by path does not depend on the letter case of the URI. */
  lemma SkipIgnoresUriCase(cfg: RateLimitConfig, req: Request)
    ensures ShouldSkip(cfg, req) <==> ShouldSkip(cfg, req.(uri := ToLower(req.uri)))
  {
    ToLowerIdempotent(req.uri);
  }

  /** An excluded path written with an upper-case letter can never match the lower-cased URI. */
  lemma UpperCaseExclusionNeverMatches(p: string, uri: string, k: nat)
    requires k < |p| && 'A' <= p[k] <= 'Z'
    ensures !StartsWith(ToLower(uri), p)
  {
  }

  // ---------------------------------------------------------------- client address

  /** The array index exception thrown when a header value consists of commas only. */
  datatype IndexOutOfBounds = IndexOutOfBounds

  /** A header value worth using: it has text and is not "unknown" in any case. */
  predicate Usable(v: Option<string>) {
    v.Some? && HasText(v.value) && !EqualsIgnoreCase("unknown", v.value)
  }

  /** The value of the first usable header among `names`, in order. */
  function FirstUsable(req: Request, names: seq<string>): (r: Option<string>)
    ensures r.None? <==> forall i :: 0 <= i < |names| ==> !Usable(Header(req, names[i]))
    ensures r.Some? ==> exists i :: 0 <= i < |names| && Header(req, names[i]) == r
                                    && Usable(r) && forall k :: 0 <= k < i ==> !Usable(Header(req, names[k]))
  {
    if names == [] then None
    else if Usable(Header(req, names[0])) then Header(req, names[0])
    else
      var r := FirstUsable(req, names[1..]);
      assert forall i :: 0 < i < |names| ==> names[i] == names[1..][i - 1];
      r
  }

  /** The first hop of a possibly comma-separated value, trimmed. */
  function FirstHop(v: string): Result<string, IndexOutOfBounds> {
    if ',' in v then
      var pieces := Split(v, ',');
      if pieces == [] then Err(IndexOutOfBounds) else Ok(Trim(pieces[0]))
    else Ok(Trim(v))
  }

  /**
   * resolveClientIp: the remote address unless it is a trusted proxy; from a
   * trusted proxy, the first hop of the first usable header, else the remote
   * address. Whether an address is a trusted proxy is given as `trusted`.
   */
  function ClientIp(req: Request, trusted: string -> bool): Result<string, IndexOutOfBounds> {
    if !trusted(req.remoteAddr) then Ok(req.remoteAddr)
    else match FirstUsable(req, IpHeaders) {
      case None => Ok(req.remoteAddr)
      case Some(v) => FirstHop(v)
    }
  }

  /** One step of the header walk: a usable header is the answer, an unusable one is skipped. */
  lemma FirstUsableStep(req: Request, names: seq<string>, i: nat)
    requires i < |names|
    ensures Usable(Header(req, names[i])) ==> FirstUsable(req, names[i..]) == Header(req, names[i])
    ensures !Usable(Header(req, names[i])) ==> FirstUsable(req, names[i..]) == FirstUsable(req, names[i + 1..])
  {
    assert names[i..][0] == names[i];
    assert names[i..][1..] == names[i + 1..];
  }

  /**
   * The header loop of resolveClientIp over the given names: the first hop of
   * the first usable header, or nothing when no header is usable.
   */
  method FirstHopOfHeaders(req: Request, names: seq<string>) returns (r: Option<Result<string, IndexOutOfBounds>>)
    ensures FirstUsable(req, names).None? ==> r.None?
    ensures FirstUsable(req, names).Some? ==> r == Some(FirstHop(FirstUsable(req, names).value))
  {
    var i := 0;
    while i < |names|
      invariant 0 <= i <= |names|
      invariant FirstUsable(req, names) == FirstUsable(req, names[i..])
    {
      var ip := Header(req, names[i]);
      FirstUsableStep(req, names, i);
      if ip.Some? && HasText(ip.value) && !EqualsIgnoreCase("unknown", ip.value) {
        var value := ip.value;
        if ',' in value {
          var pieces := Split(value, ',');
          if pieces == [] {
            return Some(Err(IndexOutOfBounds));
          }
          value := pieces[0];
        }
        return Some(Ok(Trim(value)));
      }
      i := i + 1;
    }
    return None;
  }

  /** resolveClientIp: the remote address unless a trusted proxy forwarded a usable header. */
  method ResolveClientIp(req: Request, trusted: string -> bool) returns (r: Result<string, IndexOutOfBounds>)
    ensures r == ClientIp(req, trusted)
  {
    var remoteAddr := req.remoteAddr;
    if !trusted(remoteAddr) {
      return Ok(remoteAddr);
    }
    var hop := FirstHopOfHeaders(req, IpHeaders);
    if hop.Some? {
      return hop.value;
    }
    return Ok(remoteAddr);
  }

  /** From an untrusted peer the headers are ignored entirely. */
  lemma UntrustedPeerUsesRemoteAddr(req: Request, trusted: string -> bool, headers: map<string, string>)
    requires !trusted(req.remoteAddr)
    ensures ClientIp(req, trusted) == ClientIp(req.(headers := headers), trusted) == Ok(req.remoteAddr)
  {
  }

  /** From a trusted proxy, the first usable header in IP_HEADERS order decides. */
  lemma TrustedProxyFirstHeaderWins(req: Request, trusted: string -> bool, j: nat)
    requires trusted(req.remoteAddr)
    requires j < |IpHeaders| && Usable(Header(req, IpHeaders[j]))
    requires forall k :: 0 <= k < j ==> !Usable(Header(req, IpHeaders[k]))
    ensures ClientIp(req, trusted) == FirstHop(Header(req, IpHeaders[j]).value)
  {
    var r := FirstUsable(req, IpHeaders);
    assert r.Some?;
    var i :| 0 <= i < |IpHeaders| && Header(req, IpHeaders[i]) == r
             && Usable(r) && forall k :: 0 <= k < i ==> !Usable(Header(req, IpHeaders[k]));
    assert i == j;
  }

  /** Resolution fails only for a trusted proxy whose first usable header is all commas. */
  lemma ClientIpFailsOnlyOnCommas(req: Request, trusted: string -> bool)
    ensures ClientIp(req, trusted).Err? <==>
      trusted(req.remoteAddr) && FirstUsable(req, IpHeaders).Some?
      && forall i :: 0 <= i < |FirstUsable(req, IpHeaders).value| ==> FirstUsable(req, IpHeaders).value[i] == ','
  {
    if trusted(req.remoteAddr) && FirstUsable(req, IpHeaders).Some? {
      var v := FirstUsable(req, IpHeaders).value;
      SplitEmptyIff(v, ',');
      assert HasText(v);
      if forall i :: 0 <= i < |v| ==> v[i] == ',' {
        assert v[0] == ',';
      }
    }
  }

  // ---------------------------------------------------------------- key and capacity

  /** The site code used for limiting: the bound one when it has text, else "anonymous". */
  function EffectiveSite(siteCode: Option<string>): (r: string)
    ensures siteCode.Some? && HasText(siteCode.value) ==> r == siteCode.value
    ensures !(siteCode.Some? && HasText(siteCode.value)) ==> r == AnonymousSite
  {
    if siteCode.Some? && HasText(siteCode.value) then siteCode.value else AnonymousSite
  }

  /** The bucket key siteCode:clientIp:uri. */
  function RateKey(site: string, clientIp: string, uri: string): string {
    site + ":" + clientIp + ":" + uri
  }

  /** A key starts with its site code and a colon, and the site code is recoverable when it has no colon. */
  lemma {:induction false} KeyDeterminesSite(a: string, x: string, b: string, y: string)
    requires ':' !in a && ':' !in b
    requires a + ":" + x == b + ":" + y
    ensures a == b && x == y
  {
    var ka, kb := a + ":" + x, b + ":" + y;
    assert forall i :: 0 <= i < |a| ==> ka[i] != ':';
    assert forall i :: 0 <= i < |b| ==> kb[i] != ':';
    assert ka[|a|] == ':' && kb[|b|] == ':';
    assert |a| == |b|;
    assert a == ka[..|a|] == kb[..|b|] == b;
    assert x == ka[|a| + 1..] == kb[|b| + 1..] == y;
  }

  /** Tenant isolation: requests of two different sites never share a bucket. */
  lemma SitesNeverShareKeys(a: string, ipA: string, uriA: string, b: string, ipB: string, uriB: string)
    requires ':' !in a && ':' !in b && a != b
    ensures RateKey(a, ipA, uriA) != RateKey(b, ipB, uriB)
  {
    if RateKey(a, ipA, uriA) == RateKey(b, ipB, uriB) {
      assert RateKey(a, ipA, uriA) == a + ":" + (ipA + ":" + uriA);
      assert RateKey(b, ipB, uriB) == b + ":" + (ipB + ":" + uriB);
      KeyDeterminesSite(a, ipA + ":" + uriA, b, ipB + ":" + uriB);
    }
  }

  /** The capacity for a site: its override when configured, else the default. */
  function Capacity(cfg: RateLimitConfig, site: string): int {
    if site in cfg.perTenantCapacities then cfg.perTenantCapacities[site] else cfg.capacity
  }

  // ---------------------------------------------------------------- Retry-After

  /** max(1, nanos / 10^9): whole seconds rounded down, at least one. */
  function RetryAfterSeconds(nanos: nat): (r: nat)
    ensures r >= 1
    ensures nanos < 2 * NanosPerSecond ==> r == 1
    ensures nanos >= NanosPerSecond ==> r * NanosPerSecond <= nanos < (r + 1) * NanosPerSecond
  {
    var s := nanos / NanosPerSecond;
    if s < 1 then 1 else s
  }

  // ---------------------------------------------------------------- decimal rendering

  function DigitChar(d: nat): char
    requires d < 10
  {
    ('0' as int + d) as char
  }

  predicate AllDigits(s: string) {
    forall i :: 0 <= i < |s| ==> '0' <= s[i] <= '9'
  }

  /** String.valueOf on a non-negative long: its decimal digits, most significant first. */
  function Decimal(n: nat): (r: string)
    ensures |r| >= 1 && AllDigits(r)
    ensures |r| > 1 ==> r[0] != '0'
    decreases n
  {
    if n < 10 then [DigitChar(n)] else Decimal(n / 10) + [DigitChar(n % 10)]
  }

  /** The value a string of decimal digits denotes. */
  function DecimalValue(s: string): nat
    requires AllDigits(s)
  {
    if s == [] then 0 else DecimalValue(s[..|s| - 1]) * 10 + (s[|s| - 1] as int - '0' as int)
  }

  /** Reading a rendered number back gives the number. */
  lemma {:induction false} DecimalRoundTrip(n: nat)
    ensures DecimalValue(Decimal(n)) == n
    decreases n
  {
    if n >= 10 {
      var s := Decimal(n);
      assert s[..|s| - 1] == Decimal(n / 10);
      DecimalRoundTrip(n / 10);
    }
  }

  /** Distinct numbers render differently. */
  lemma DecimalInjective(m: nat, n: nat)
    requires Decimal(m) == Decimal(n)
    ensures m == n
  {
    DecimalRoundTrip(m);
    DecimalRoundTrip(n);
  }

  // ---------------------------------------------------------------- token bucket

  /**
   * A Bucket4j bucket with a classic bandwidth and greedy refill of
   * `capacity` tokens per minute. `level` counts 1/60000 of a token (one
   * token per minute refilled per millisecond per unit of capacity), and
   * `lastRefill` is the millisecond clock of the last refill.
   */
  datatype Bucket = Bucket(capacity: int, level: int, lastRefill: int)

  /** ConsumptionProbe: whether a token was taken, the whole tokens left and the wait for the next one. */
  datatype Probe = Probe(consumed: bool, remainingTokens: nat, nanosToWaitForRefill: nat)

  /** Bandwidth.classic rejects a non-positive capacity. */
  datatype ProviderFailure = InvalidCapacity(capacity: int)

  /** One whole token in level units. */
  const Token := RefillPeriodMillis

  function Full(capacity: int): int {
    capacity * Token
  }

  predicate WellFormed(b: Bucket) {
    b.capacity > 0 && 0 <= b.level <= Full(b.capacity)
  }

  /** createNewBucket: a bucket that starts full. */
  function NewBucket(capacity: int, now: int): (b: Bucket)
    requires capacity > 0
    ensures WellFormed(b) && b.level == Full(capacity) && b.capacity == capacity
  {
    Bucket(capacity, Full(capacity), now)
  }

  /** Greedy refill: tokens in proportion to the time elapsed since the last refill, never above capacity. */
  function Refill(b: Bucket, now: int): (r: Bucket)
    requires WellFormed(b)
    ensures WellFormed(r) && r.capacity == b.capacity
    ensures b.level <= r.level
    ensures r.level == Min(Full(b.capacity), b.level + Elapsed(b, now) * b.capacity)
  {
    var level := Min(Full(b.capacity), b.level + Elapsed(b, now) * b.capacity);
    Bucket(b.capacity, level, if now > b.lastRefill then now else b.lastRefill)
  }

  function Min(a: int, b: int): int {
    if a <= b then a else b
  }

  /** Milliseconds since the last refill; a clock that went back counts as none. */
  function Elapsed(b: Bucket, now: int): nat {
    if now > b.lastRefill then now - b.lastRefill else 0
  }

  /** Milliseconds until a bucket below one token holds a whole token again. */
  function MillisToToken(b: Bucket): (ms: nat)
    requires WellFormed(b) && b.level < Token
    ensures ms * b.capacity >= Token - b.level
    ensures ms > 0
  {
    var deficit := Token - b.level;
    var ms := (deficit + b.capacity - 1) / b.capacity;
    DivCeiling(deficit, b.capacity);
    ms
  }

  lemma DivCeiling(d: int, c: int)
    requires d > 0 && c > 0
    ensures (d + c - 1) / c > 0
    ensures (d + c - 1) / c * c >= d
  {
    var q, m := (d + c - 1) / c, (d + c - 1) % c;
    assert d + c - 1 == q * c + m;
    assert m < c;
  }

  /** The result of tryConsumeAndReturnRemaining(1) and the bucket afterwards. */
  datatype Consumption = Consumption(probe: Probe, bucket: Bucket)

  /** tryConsumeAndReturnRemaining(1) after refilling to `now`. */
  function Consume(b: Bucket, now: int): (c: Consumption)
    requires WellFormed(b)
    ensures WellFormed(c.bucket) && c.bucket.capacity == b.capacity
    ensures c.probe.consumed <==> Refill(b, now).level >= Token
    ensures c.probe.consumed ==> c.bucket.level == Refill(b, now).level - Token && c.probe.nanosToWaitForRefill == 0
    ensures !c.probe.consumed ==> c.bucket == Refill(b, now) && c.probe.nanosToWaitForRefill > 0
    ensures c.probe.remainingTokens == c.bucket.level / Token
  {
    var r := Refill(b, now);
    if r.level >= Token then
      var after := r.(level := r.level - Token);
      Consumption(Probe(true, after.level / Token, 0), after)
    else
      Consumption(Probe(false, r.level / Token, MillisToToken(r) * NanosPerMilli), r)
  }

  predicate AllWellFormed(buckets: map<string, Bucket>) {
    forall k :: k in buckets ==> WellFormed(buckets[k])
  }

  /** The outcome of one tryConsume and the provider's bucket map afterwards. */
  datatype Attempt = Attempt(result: Result<Probe, ProviderFailure>, buckets: map<string, Bucket>)

  /**
   * tryConsume(key, capacity): the key's bucket, created full on its first
   * request with the given capacity, gives up one token if it has one.
   * Buckets of other keys are untouched.
   */
  function TryConsumeSpec(buckets: map<string, Bucket>, key: string, capacity: int, now: int): (a: Attempt)
    requires AllWellFormed(buckets)
    ensures AllWellFormed(a.buckets)
    ensures a.buckets.Keys == buckets.Keys + (if a.result.Ok? then {key} else {})
    ensures forall k :: k in buckets && k != key ==> a.buckets[k] == buckets[k]
    ensures a.result.Err? <==> key !in buckets && capacity <= 0
    ensures a.result.Err? ==> a.buckets == buckets
  {
    if key in buckets then
      var c := Consume(buckets[key], now);
      Attempt(Ok(c.probe), buckets[key := c.bucket])
    else if capacity <= 0 then
      Attempt(Err(InvalidCapacity(capacity)), buckets)
    else
      var c := Consume(NewBucket(capacity, now), now);
      Attempt(Ok(c.probe), buckets[key := c.bucket])
  }

  /** The first request for a key succeeds and leaves capacity - 1 tokens. */
  lemma FirstRequestLeavesCapacityMinusOne(buckets: map<string, Bucket>, key: string, capacity: int, now: int)
    requires AllWellFormed(buckets) && key !in buckets && capacity > 0
    ensures TryConsumeSpec(buckets, key, capacity, now).result == Ok(Probe(true, capacity - 1, 0))
    ensures TryConsumeSpec(buckets, key, capacity, now).buckets[key].capacity == capacity
  {
    var b := NewBucket(capacity, now);
    assert Refill(b, now).level == Full(capacity);
    assert (Full(capacity) - Token) / Token == capacity - 1;
  }

  /** With capacity 1, an immediate second request is refused, reports no tokens and a 60-second wait. */
  lemma SecondImmediateRequestRefused(buckets: map<string, Bucket>, key: string, now: int)
    requires AllWellFormed(buckets) && key !in buckets
    ensures var first := TryConsumeSpec(buckets, key, 1, now);
            first.result.Ok? && first.result.value.consumed
            && TryConsumeSpec(first.buckets, key, 1, now).result
               == Ok(Probe(false, 0, RefillPeriodMillis * NanosPerMilli))
  {
    var first := TryConsumeSpec(buckets, key, 1, now);
    FirstRequestLeavesCapacityMinusOne(buckets, key, 1, now);
    var b := first.buckets[key];
    assert b.level == 0 && b.lastRefill == now;
    assert Refill(b, now).level == 0;
  }

  /** The capacity argument matters only when the key's bucket is created. */
  lemma CapacityFixedAtCreation(buckets: map<string, Bucket>, key: string, c1: int, c2: int, now: int)
    requires AllWellFormed(buckets) && key in buckets
    ensures TryConsumeSpec(buckets, key, c1, now) == TryConsumeSpec(buckets, key, c2, now)
    ensures TryConsumeSpec(buckets, key, c1, now).buckets[key].capacity == buckets[key].capacity
  {
  }

  /** A refusal names a wait after which the same key is served (on a clock that does not go back). */
  lemma {:induction false} WaitingAsToldSucceeds(buckets: map<string, Bucket>, key: string, capacity: int, now: int)
    requires AllWellFormed(buckets)
    requires key in buckets ==> buckets[key].lastRefill <= now
    requires TryConsumeSpec(buckets, key, capacity, now).result.Ok?
    requires !TryConsumeSpec(buckets, key, capacity, now).result.value.consumed
    ensures var a := TryConsumeSpec(buckets, key, capacity, now);
            var later := now + a.result.value.nanosToWaitForRefill / NanosPerMilli;
            TryConsumeSpec(a.buckets, key, capacity, later).result.Ok?
            && TryConsumeSpec(a.buckets, key, capacity, later).result.value.consumed
  {
    var a := TryConsumeSpec(buckets, key, capacity, now);
    var b := a.buckets[key];
    assert b.lastRefill == now;
    var ms := MillisToToken(b);
    assert a.result.value.nanosToWaitForRefill == ms * NanosPerMilli;
    assert a.result.value.nanosToWaitForRefill / NanosPerMilli == ms;
    var later := now + ms;
    assert Elapsed(b, later) == ms;
    assert Full(b.capacity) >= Token;
    assert Refill(b, later).level >= Token;
  }

  // ---------------------------------------------------------------- provider

  /** The in-memory provider: one bucket per key. */
  class LocalRateLimitProvider {
    var buckets: map<string, Bucket>

    ghost predicate Valid()
      reads this
    {
      AllWellFormed(buckets)
    }

    constructor ()
      ensures Valid() && buckets == map[]
    {
      buckets := map[];
    }

    /** tryConsume(key, capacity) at millisecond `now`. */
    method TryConsume(key: string, capacity: int, now: int) returns (r: Result<Probe, ProviderFailure>)
      requires Valid()
      modifies this
      ensures Valid()
      ensures r == TryConsumeSpec(old(buckets), key, capacity, now).result
      ensures buckets == TryConsumeSpec(old(buckets), key, capacity, now).buckets
    {
      var b: Bucket;
      if key in buckets {
        b := buckets[key];
      } else {
        if capacity <= 0 {
          return Err(InvalidCapacity(capacity));
        }
        b := NewBucket(capacity, now);
      }
      var c := Consume(b, now);
      buckets := buckets[key := c.bucket];
      return Ok(c.probe);
    }
  }
}

module RateLimitFiltering {
  import opened Wrappers
  import opened JavaStrings
  import opened Http
  import opened RateLimiting
  import TenantThread

  /** An exception that leaves the rate-limit filter. */
  datatype RateEscape = ClientIpFailure | DownstreamFailure

  /**
   * The filter's effect on one request: the status it sets (none when the
   * response is left to the chain), the headers it sets, how many times the
   * rest of the chain runs, and the exception that escapes, if any.
   */
  datatype RateOutcome = RateOutcome(status: Option<int>, headers: map<string, string>,
                                     chainCalls: nat, escaped: Option<RateEscape>)

  /** The outcome together with the provider's buckets afterwards. */
  datatype RateStep = RateStep(outcome: RateOutcome, buckets: map<string, Bucket>)

  /** The chain runs once with the given headers set; its own exception, if any, escapes. */
  function Passed(headers: map<string, string>, chainThrows: bool): RateOutcome {
    RateOutcome(None, headers, 1, if chainThrows then Some(DownstreamFailure) else None)
  }

  /**
   * doFilterInternal with the fail-open guard around the provider call only:
   * exempt requests pass untouched; a failing address extraction escapes; a
   * provider failure passes; a consumed token sets X-Rate-Limit-Remaining and
   * passes; a refusal answers 429 with Retry-After and stops the chain.
   * `trusted` says which remote addresses are trusted proxies, `now` is the
   * provider's millisecond clock and `chainThrows` whether the rest of the
   * chain throws.
   */
  function RateAdmission(cfg: RateLimitConfig, trusted: string -> bool, buckets: map<string, Bucket>,
                         req: Request, siteCode: Option<string>, now: int, chainThrows: bool): (s: RateStep)
    requires AllWellFormed(buckets)
    ensures AllWellFormed(s.buckets)
  {
    if ShouldSkip(cfg, req) then RateStep(Passed(map[], chainThrows), buckets)
    else
      var site := EffectiveSite(siteCode);
      match ClientIp(req, trusted) {
        case Err(_) => RateStep(RateOutcome(None, map[], 0, Some(ClientIpFailure)), buckets)
        case Ok(ip) =>
          var a := TryConsumeSpec(buckets, RateKey(site, ip, req.uri), Capacity(cfg, site), now);
          match a.result {
            case Err(_) => RateStep(Passed(map[], chainThrows), a.buckets)
            case Ok(p) =>
              if p.consumed then
                RateStep(Passed(map[RemainingHeader := Decimal(p.remainingTokens)], chainThrows), a.buckets)
              else
                RateStep(RateOutcome(Some(StatusTooManyRequests),
                                     map[RetryAfterHeader := Decimal(RetryAfterSeconds(p.nanosToWaitForRefill))],
                                     0, None), a.buckets)
          }
      }
  }

  /**
   * doFilterInternal as written: the chain call after a consumed token is
   * inside the same try, so a downstream exception is caught as a "rate limit
   * system error" and the chain is invoked a second time (which throws again).
   */
  function RateAdmissionAsWritten(cfg: RateLimitConfig, trusted: string -> bool, buckets: map<string, Bucket>,
                                  req: Request, siteCode: Option<string>, now: int, chainThrows: bool): (s: RateStep)
    requires AllWellFormed(buckets)
    ensures AllWellFormed(s.buckets)
  {
    var fixed := RateAdmission(cfg, trusted, buckets, req, siteCode, now, chainThrows);
    if !ShouldSkip(cfg, req) && ClientIp(req, trusted).Ok? && chainThrows then
      var site := EffectiveSite(siteCode);
      var a := TryConsumeSpec(buckets, RateKey(site, ClientIp(req, trusted).value, req.uri), Capacity(cfg, site), now);
      if a.result.Ok? && a.result.value.consumed then
        RateStep(fixed.outcome.(chainCalls := 2), fixed.buckets)
      else fixed
    else fixed
  }

  /** The as-written filter runs the chain twice when it throws after a token was consumed. */
  lemma DownstreamFailureRerunsChain(cfg: RateLimitConfig, trusted: string -> bool, buckets: map<string, Bucket>,
                                     req: Request, siteCode: Option<string>, now: int)
    requires AllWellFormed(buckets) && !ShouldSkip(cfg, req) && !trusted(req.remoteAddr)
    requires RateKey(EffectiveSite(siteCode), req.remoteAddr, req.uri) !in buckets
    requires Capacity(cfg, EffectiveSite(siteCode)) > 0
    ensures RateAdmissionAsWritten(cfg, trusted, buckets, req, siteCode, now, true).outcome.chainCalls == 2
    ensures RateAdmission(cfg, trusted, buckets, req, siteCode, now, true).outcome.chainCalls == 1
  {
    var site := EffectiveSite(siteCode);
    FirstRequestLeavesCapacityMinusOne(buckets, RateKey(site, req.remoteAddr, req.uri), Capacity(cfg, site), now);
  }

  /** With the guard around the provider only, the chain runs at most once, and not at all only on a refusal or an address failure. */
  lemma ChainRunsAtMostOnce(cfg: RateLimitConfig, trusted: string -> bool, buckets: map<string, Bucket>,
                            req: Request, siteCode: Option<string>, now: int, chainThrows: bool)
    requires AllWellFormed(buckets)
    ensures var o := RateAdmission(cfg, trusted, buckets, req, siteCode, now, chainThrows).outcome;
            o.chainCalls <= 1
            && (o.chainCalls == 0 <==> o.status == Some(StatusTooManyRequests) || o.escaped == Some(ClientIpFailure))
  {
    if !ShouldSkip(cfg, req) {
      var site := EffectiveSite(siteCode);
      match ClientIp(req, trusted) {
        case Err(_) =>
        case Ok(ip) =>
          var a := TryConsumeSpec(buckets, RateKey(site, ip, req.uri), Capacity(cfg, site), now);
          match a.result {
            case Err(_) =>
            case Ok(p) =>
          }
      }
    }
  }

  /** Exempt requests reach the chain and leave every bucket as it was. */
  lemma ExemptRequestBypasses(cfg: RateLimitConfig, trusted: string -> bool, buckets: map<string, Bucket>,
                              req: Request, siteCode: Option<string>, now: int, chainThrows: bool)
    requires AllWellFormed(buckets) && ShouldSkip(cfg, req)
    ensures var s := RateAdmission(cfg, trusted, buckets, req, siteCode, now, chainThrows);
            s.buckets == buckets && s.outcome.chainCalls == 1 && s.outcome.status == None && s.outcome.headers == map[]
  {
  }

  /**
   * The first request of a client for a URI creates its bucket with the site's
   * capacity (the override when configured) and reports capacity - 1 tokens left.
   */
  lemma FirstRequestUsesSiteCapacity(cfg: RateLimitConfig, trusted: string -> bool, buckets: map<string, Bucket>,
                                     req: Request, siteCode: Option<string>, now: int, chainThrows: bool)
    requires AllWellFormed(buckets) && !ShouldSkip(cfg, req) && ClientIp(req, trusted).Ok?
    requires RateKey(EffectiveSite(siteCode), ClientIp(req, trusted).value, req.uri) !in buckets
    requires Capacity(cfg, EffectiveSite(siteCode)) > 0
    ensures var site := EffectiveSite(siteCode);
            var s := RateAdmission(cfg, trusted, buckets, req, siteCode, now, chainThrows);
            var key := RateKey(site, ClientIp(req, trusted).value, req.uri);
            && key in s.buckets
            && s.buckets[key].capacity == (if site in cfg.perTenantCapacities then cfg.perTenantCapacities[site] else cfg.capacity)
            && s.outcome == Passed(map[RemainingHeader := Decimal(s.buckets[key].capacity - 1)], chainThrows)
  {
    var site := EffectiveSite(siteCode);
    FirstRequestLeavesCapacityMinusOne(buckets, RateKey(site, ClientIp(req, trusted).value, req.uri), Capacity(cfg, site), now);
  }

  /** A refusal answers 429 with a Retry-After of at least one second and does not run the chain. */
  lemma RefusalAnswersTooManyRequests(cfg: RateLimitConfig, trusted: string -> bool, buckets: map<string, Bucket>,
                                      req: Request, siteCode: Option<string>, now: int, chainThrows: bool)
    requires AllWellFormed(buckets)
    requires RateAdmission(cfg, trusted, buckets, req, siteCode, now, chainThrows).outcome.status.Some?
    ensures var o := RateAdmission(cfg, trusted, buckets, req, siteCode, now, chainThrows).outcome;
            o.status == Some(StatusTooManyRequests) && o.chainCalls == 0 && o.escaped == None
            && RetryAfterHeader in o.headers && AllDigits(o.headers[RetryAfterHeader])
            && DecimalValue(o.headers[RetryAfterHeader]) >= 1
  {
    var site := EffectiveSite(siteCode);
    var ip := ClientIp(req, trusted).value;
    var a := TryConsumeSpec(buckets, RateKey(site, ip, req.uri), Capacity(cfg, site), now);
    DecimalRoundTrip(RetryAfterSeconds(a.result.value.nanosToWaitForRefill));
  }

  /** Tenant isolation: a request never touches a bucket of another site (site codes without colons). */
  lemma OtherSitesUnaffected(cfg: RateLimitConfig, trusted: string -> bool, buckets: map<string, Bucket>,
                             req: Request, siteCode: Option<string>, now: int, chainThrows: bool,
                             other: string, otherIp: string, otherUri: string)
    requires AllWellFormed(buckets)
    requires ':' !in EffectiveSite(siteCode) && ':' !in other && other != EffectiveSite(siteCode)
    requires RateKey(other, otherIp, otherUri) in buckets
    ensures var s := RateAdmission(cfg, trusted, buckets, req, siteCode, now, chainThrows);
            RateKey(other, otherIp, otherUri) in s.buckets
            && s.buckets[RateKey(other, otherIp, otherUri)] == buckets[RateKey(other, otherIp, otherUri)]
  {
    if !ShouldSkip(cfg, req) && ClientIp(req, trusted).Ok? {
      SitesNeverShareKeys(EffectiveSite(siteCode), ClientIp(req, trusted).value, req.uri, other, otherIp, otherUri);
    }
  }

  class GlobalRateLimitFilter {
    const config: RateLimitConfig
    const trustedProxy: string -> bool
    const provider: LocalRateLimitProvider
    const context: TenantThread.TenantContext

    constructor (config: RateLimitConfig, trustedProxy: string -> bool,
                 provider: LocalRateLimitProvider, context: TenantThread.TenantContext)
      ensures this.config == config && this.trustedProxy == trustedProxy
      ensures this.provider == provider && this.context == context
    {
      this.config := config;
      this.trustedProxy := trustedProxy;
      this.provider := provider;
      this.context := context;
    }

    /** doFilterInternal, reading the site code bound by the tenant filter. */
    method DoFilterInternal(req: Request, now: int, chainThrows: bool) returns (out: RateOutcome)
      requires provider.Valid()
      modifies provider
      ensures provider.Valid()
      ensures out == RateAdmission(config, trustedProxy, old(provider.buckets), req, context.siteCode, now, chainThrows).outcome
      ensures provider.buckets == RateAdmission(config, trustedProxy, old(provider.buckets), req, context.siteCode, now, chainThrows).buckets
    {
      if ShouldSkip(config, req) {
        return Passed(map[], chainThrows);
      }
      var site := EffectiveSite(context.siteCode);
      var ip := ResolveClientIp(req, trustedProxy);
      if ip.Err? {
        return RateOutcome(None, map[], 0, Some(ClientIpFailure));
      }
      var key := RateKey(site, ip.value, req.uri);
      var capacity := Capacity(config, site);
      var probe := provider.TryConsume(key, capacity, now);
      if probe.Err? {
        return Passed(map[], chainThrows);
      }
      var p := probe.value;
      if p.consumed {
        return Passed(map[RemainingHeader := Decimal(p.remainingTokens)], chainThrows);
      }
      var wait := RetryAfterSeconds(p.nanosToWaitForRefill);
      return RateOutcome(Some(StatusTooManyRequests), map[RetryAfterHeader := Decimal(wait)], 0, None);
    }
  }
}
