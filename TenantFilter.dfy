/**
 * The tenant filter: skips excluded paths, resolves the site, refuses unknown
 * sites (404) and sites under maintenance (503), binds the tenant context and
 * the logging site code around the rest of the chain, and always unbinds them.
 */
module TenantFiltering {
  import opened Wrappers
  import AntMatch
  import opened Http
  import opened TenantDomain
  import TenantResolution
  import opened TenantMetadata
  import TenantThread
  import DiagnosticContext
  import JavaStrings

  const MdcSiteKey := "siteCode"

  /** The excluded paths configured by default for the tenant filter. */
  const DefaultExcludedPaths: seq<string> := [
    "/login", "/login-process", "/find-password", "/register", "/favicon.ico", "/error",
    "/static/**", "/actuator/**", "/api/admin/**", "/h2-console/**"]

  /** Some excluded pattern matches the request URI. */
  predicate Excluded(excluded: seq<string>, uri: string) {
    exists i :: 0 <= i < |excluded| && AntMatch.Match(excluded[i], uri, '/')
  }

  /** shouldNotFilter: the loop over the excluded patterns, stopping at the first match. */
  method ShouldNotFilter(excluded: seq<string>, uri: string) returns (skip: bool)
    ensures skip <==> Excluded(excluded, uri)
  {
    var i := 0;
    while i < |excluded|
      invariant 0 <= i <= |excluded|
      invariant forall k :: 0 <= k < i ==> !AntMatch.Match(excluded[k], uri, '/')
    {
      if AntMatch.Match(excluded[i], uri, '/') {
        return true;
      }
      i := i + 1;
    }
    return false;
  }

  /** What the rest of the chain observes when it is invoked. */
  datatype Observed = Observed(siteCode: Option<string>, tenant: Option<TenantInfo>, mdcSiteCode: Option<string>)

  /** An exception that leaves the filter. */
  datatype Escaped = MetadataFailure(error: LookupError) | DownstreamFailure

  /**
   * The filter's effect on one request: the status it sets (none when it
   * leaves the response to the chain), what the chain observed if it ran,
   * and the exception that escapes, if any.
   */
  datatype Outcome = Outcome(status: Option<int>, chainRan: Option<Observed>, escaped: Option<Escaped>)

  /**
   * doFilterInternal as a function of the resolver's rules, the metadata cache,
   * the tenant table, the request and whether the downstream chain throws.
   */
  function Admission(rules: map<string, string>, patterns: seq<string>,
                     cache: map<string, TenantInfo>, rows: seq<TenantRecord>,
                     req: Request, chainThrows: bool): Outcome
  {
    match TenantResolution.Resolution(rules, patterns, req.serverName, Header(req, TenantResolution.TenantHeader)) {
      case Err(_) => Outcome(Some(StatusNotFound), None, None)
      case Ok(siteCode) =>
        match Lookup(cache, rows, siteCode) {
          case Err(e) => Outcome(None, None, Some(MetadataFailure(e)))
          case Ok(info) =>
            if info.maintenance then Outcome(Some(StatusServiceUnavailable), None, None)
            else Outcome(None, Some(Observed(Some(info.siteCode), Some(info), Some(siteCode))),
                         if chainThrows then Some(DownstreamFailure) else None)
        }
    }
  }

  /** The resolver's result cache after a request: only a host resolved without the override header is added. */
  function ResultCacheAfter(rules: map<string, string>, patterns: seq<string>, results: map<string, string>,
                            req: Request): map<string, string>
  {
    var header := Header(req, TenantResolution.TenantHeader);
    var resolved := TenantResolution.Resolution(rules, patterns, req.serverName, header);
    if !Present(header) && resolved.Ok? then results[JavaStrings.ToLower(req.serverName) := resolved.value]
    else results
  }

  /** The metadata cache after a request: the resolved site's metadata, when it loads, is cached. */
  function MetadataCacheAfter(rules: map<string, string>, patterns: seq<string>, cache: map<string, TenantInfo>,
                              rows: seq<TenantRecord>, req: Request): map<string, TenantInfo>
  {
    match TenantResolution.Resolution(rules, patterns, req.serverName, Header(req, TenantResolution.TenantHeader)) {
      case Err(_) => cache
      case Ok(siteCode) =>
        match Lookup(cache, rows, siteCode) {
          case Err(_) => cache
          case Ok(info) => cache[siteCode := info]
        }
    }
  }

  class TenantFilter {
    const excludedPaths: seq<string>
    const resolver: TenantResolution.DomainTenantResolver
    const metadata: TenantMetadataProvider
    const tenants: TenantStore.TenantRepository
    const context: TenantThread.TenantContext
    const mdc: DiagnosticContext.Mdc

    ghost predicate Valid()
      reads this, resolver, metadata, context
    {
      resolver.Valid() && metadata.Valid() && context.Valid()
    }

    constructor (excludedPaths: seq<string>,
                 resolver: TenantResolution.DomainTenantResolver,
                 metadata: TenantMetadataProvider,
                 tenants: TenantStore.TenantRepository,
                 context: TenantThread.TenantContext,
                 mdc: DiagnosticContext.Mdc)
      requires resolver.Valid() && metadata.Valid() && context.Valid()
      ensures Valid()
      ensures this.excludedPaths == excludedPaths && this.resolver == resolver && this.metadata == metadata
      ensures this.tenants == tenants && this.context == context && this.mdc == mdc
    {
      this.excludedPaths := excludedPaths;
      this.resolver := resolver;
      this.metadata := metadata;
      this.tenants := tenants;
      this.context := context;
      this.mdc := mdc;
    }

    /**
     * doFilterInternal: resolution, metadata, the maintenance gate and the
     * binding, all inside a try whose finally clears the tenant context and
     * removes the logging site code on every exit. Only the unknown-tenant
     * exception is turned into a response.
     */
    method DoFilterInternal(req: Request, chainThrows: bool) returns (out: Outcome)
      requires Valid()
      modifies resolver`resultCache, metadata, context, mdc
      ensures Valid()
      ensures out == Admission(old(resolver.cachedRules), old(resolver.sortedPatterns), old(metadata.cache),
                               tenants.rows, req, chainThrows)
      ensures context.siteCode == None && context.tenant == None
      ensures mdc.entries == old(mdc.entries) - {MdcSiteKey}
      ensures resolver.resultCache == ResultCacheAfter(old(resolver.cachedRules), old(resolver.sortedPatterns),
                                                       old(resolver.resultCache), req)
      ensures metadata.cache == MetadataCacheAfter(old(resolver.cachedRules), old(resolver.sortedPatterns),
                                                   old(metadata.cache), tenants.rows, req)
    {
      var resolved := resolver.ResolveSiteCode(req.serverName, Header(req, TenantResolution.TenantHeader));
      if resolved.Err? {
        out := Outcome(Some(StatusNotFound), None, None);
      } else {
        var siteCode := resolved.value;
        var info := metadata.GetTenantInfo(tenants.rows, siteCode);
        if info.Err? {
          out := Outcome(None, None, Some(MetadataFailure(info.error)));
        } else if info.value.maintenance {
          out := Outcome(Some(StatusServiceUnavailable), None, None);
        } else {
          context.SetContext(Some(info.value));
          mdc.Put(MdcSiteKey, siteCode);
          var seen := Observed(context.GetSiteCode(), context.GetTenant(), mdc.Get(MdcSiteKey));
          out := Outcome(None, Some(seen), if chainThrows then Some(DownstreamFailure) else None);
        }
      }
      context.Clear();
      mdc.Remove(MdcSiteKey);
    }

    /**
     * The filter as the servlet container runs it: an excluded URI goes
     * straight to the chain with the contexts untouched; any other request
     * goes through doFilterInternal.
     */
    method DoFilter(req: Request, chainThrows: bool) returns (out: Outcome)
      requires Valid()
      modifies resolver`resultCache, metadata, context, mdc
      ensures Valid()
      ensures Excluded(excludedPaths, req.uri) ==>
        out == Outcome(None, Some(Observed(old(context.siteCode), old(context.tenant), old(mdc.Get(MdcSiteKey)))),
                       if chainThrows then Some(DownstreamFailure) else None)
        && unchanged(resolver, metadata, context, mdc)
      ensures !Excluded(excludedPaths, req.uri) ==>
        out == Admission(old(resolver.cachedRules), old(resolver.sortedPatterns), old(metadata.cache),
                         tenants.rows, req, chainThrows)
        && context.siteCode == None && context.tenant == None
        && mdc.entries == old(mdc.entries) - {MdcSiteKey}
        && resolver.resultCache == ResultCacheAfter(old(resolver.cachedRules), old(resolver.sortedPatterns),
                                                    old(resolver.resultCache), req)
        && metadata.cache == MetadataCacheAfter(old(resolver.cachedRules), old(resolver.sortedPatterns),
                                                old(metadata.cache), tenants.rows, req)
    {
      var skip := ShouldNotFilter(excludedPaths, req.uri);
      if skip {
        var seen := Observed(context.GetSiteCode(), context.GetTenant(), mdc.Get(MdcSiteKey));
        return Outcome(None, Some(seen), if chainThrows then Some(DownstreamFailure) else None);
      }
      out := DoFilterInternal(req, chainThrows);
    }
  }

  // ------------------------------------------------------------ properties

  /** An unknown host is answered with 404 and the chain never runs. */
  lemma UnknownHostIsNotFound(rules: map<string, string>, patterns: seq<string>, cache: map<string, TenantInfo>,
                              rows: seq<TenantRecord>, req: Request, chainThrows: bool)
    requires TenantResolution.Resolution(rules, patterns, req.serverName, Header(req, TenantResolution.TenantHeader)).Err?
    ensures Admission(rules, patterns, cache, rows, req, chainThrows) == Outcome(Some(StatusNotFound), None, None)
  {
  }

  /** A site under maintenance is answered with 503, the chain never runs and nothing is bound. */
  lemma MaintenanceIsUnavailable(rules: map<string, string>, patterns: seq<string>, cache: map<string, TenantInfo>,
                                 rows: seq<TenantRecord>, req: Request, chainThrows: bool, siteCode: string)
    requires TenantResolution.Resolution(rules, patterns, req.serverName, Header(req, TenantResolution.TenantHeader)) == Ok(siteCode)
    requires Lookup(cache, rows, siteCode).Ok? && Lookup(cache, rows, siteCode).value.maintenance
    ensures Admission(rules, patterns, cache, rows, req, chainThrows) == Outcome(Some(StatusServiceUnavailable), None, None)
  {
  }

  /**
   * Otherwise the chain runs with the tenant context holding the resolved
   * metadata and the logging context holding the resolved site code, both
   * naming the same site; no status is set by the filter.
   */
  lemma ActiveSiteIsBound(rules: map<string, string>, patterns: seq<string>, cache: map<string, TenantInfo>,
                          rows: seq<TenantRecord>, req: Request, chainThrows: bool, siteCode: string)
    requires KeyedBySiteCode(cache)
    requires TenantResolution.Resolution(rules, patterns, req.serverName, Header(req, TenantResolution.TenantHeader)) == Ok(siteCode)
    requires Lookup(cache, rows, siteCode).Ok? && !Lookup(cache, rows, siteCode).value.maintenance
    ensures var o := Admission(rules, patterns, cache, rows, req, chainThrows);
      o.status == None && o.chainRan.Some?
      && o.chainRan.value.tenant == Some(Lookup(cache, rows, siteCode).value)
      && o.chainRan.value.siteCode == Some(siteCode)
      && o.chainRan.value.mdcSiteCode == Some(siteCode)
  {
    LookupAnswersSiteCode(cache, rows, siteCode);
  }

  /**
   * Only an unknown tenant becomes a response: a site code with no tenant row
   * (for instance one named by the override header) escapes as the metadata
   * failure, with no status set and the chain not run.
   */
  lemma MissingMetadataEscapes(rules: map<string, string>, patterns: seq<string>, cache: map<string, TenantInfo>,
                               rows: seq<TenantRecord>, req: Request, chainThrows: bool, siteCode: string)
    requires TenantResolution.Resolution(rules, patterns, req.serverName, Header(req, TenantResolution.TenantHeader)) == Ok(siteCode)
    requires Lookup(cache, rows, siteCode).Err?
    ensures Admission(rules, patterns, cache, rows, req, chainThrows)
            == Outcome(None, None, Some(MetadataFailure(UnknownSiteCode(UnknownSiteCodePrefix + siteCode))))
  {
  }

  /** The chain runs exactly when the site resolves, has metadata and is not under maintenance. */
  lemma ChainRunsOnlyForActiveSites(rules: map<string, string>, patterns: seq<string>, cache: map<string, TenantInfo>,
                                    rows: seq<TenantRecord>, req: Request, chainThrows: bool)
    ensures var res := TenantResolution.Resolution(rules, patterns, req.serverName, Header(req, TenantResolution.TenantHeader));
      Admission(rules, patterns, cache, rows, req, chainThrows).chainRan.Some?
      <==> res.Ok? && Lookup(cache, rows, res.value).Ok? && !Lookup(cache, rows, res.value).value.maintenance
  {
  }
}
