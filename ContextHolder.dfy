/**
 * Read-only accessors over the ambient request state: the current request,
 * the logging context, the tenant binding and the security context. The
 * state is passed in as one record.
 */
module AmbientContext {
  import opened Wrappers
  import JavaStrings
  import opened Http
  import opened TenantDomain
  import TenantThread
  import opened SecurityPrincipal

  const CorrelationIdKey := "correlationId"
  const UnknownRequestId := "UNKNOWN"
  const NoClientIp := "0.0.0.0"
  const UnknownUserAgent := "Unknown"
  const DefaultSiteCode := "DEFAULT"
  const GuestName := "Guest"
  const RolePrefix := "ROLE_"
  const UserRequiredMessage := "User authentication is required."

  datatype ChannelType = UNKNOWN | ADMIN_API | API | ADMIN | WEB

  /** The channel prefixes (ContextProperties.Channel). */
  datatype ChannelConfig = ChannelConfig(adminApiPrefix: string, apiPrefix: string, adminPrefix: string)

  function DefaultChannelConfig(): ChannelConfig {
    ChannelConfig("/api/admin", "/api", "/admin")
  }

  /** What the security context's authentication holds as its principal. */
  datatype PrincipalValue = Member(details: CustomUserDetails) | Named(name: string) | OtherPrincipal

  /** The security context's authentication. */
  datatype Authentication = Authentication(authenticated: bool, anonymousToken: bool, principal: PrincipalValue, name: Option<string>)

  /** The ambient state of one thread. */
  datatype Ambient = Ambient(
    request: Option<Request>,
    properties: Option<ChannelConfig>,
    mdc: map<string, string>,
    siteCode: Option<string>,
    tenant: Option<TenantInfo>,
    auth: Option<Authentication>)

  /** The IllegalStateException of getRequiredUserId. */
  datatype NoUser = NoUser(message: string)

  /** split(",")[0] of an X-Forwarded-For made only of commas has no element. */
  datatype IndexOutOfBounds = IndexOutOfBounds

  /** getRequestId: the correlation id of the logging context. */
  function GetRequestId(a: Ambient): (r: string)
    ensures CorrelationIdKey in a.mdc ==> r == a.mdc[CorrelationIdKey]
    ensures CorrelationIdKey !in a.mdc ==> r == UnknownRequestId
  {
    if CorrelationIdKey in a.mdc then a.mdc[CorrelationIdKey] else UnknownRequestId
  }

  /** The forwarded-for value is used unless absent, empty or "unknown" in any case. */
  predicate UsableForwardedFor(ip: Option<string>) {
    ip.Some? && ip.value != "" && !JavaStrings.EqualsIgnoreCase("unknown", ip.value)
  }

  /**
   * getClientIp: the first element of X-Forwarded-For, trimmed, when the
   * header is usable; otherwise the remote address. No proxy is checked.
   */
  function GetClientIp(a: Ambient): (r: Result<string, IndexOutOfBounds>)
    ensures a.request.None? ==> r == Ok(NoClientIp)
    ensures a.request.Some? && !UsableForwardedFor(Header(a.request.value, "X-Forwarded-For")) ==>
      r == Ok(a.request.value.remoteAddr)
    ensures a.request.Some? && UsableForwardedFor(Header(a.request.value, "X-Forwarded-For")) ==>
      var pieces := JavaStrings.Split(Header(a.request.value, "X-Forwarded-For").value, ',');
      (pieces == [] ==> r.Err?) && (pieces != [] ==> r == Ok(JavaStrings.Trim(pieces[0])))
  {
    match a.request {
      case None => Ok(NoClientIp)
      case Some(req) =>
        var ip := Header(req, "X-Forwarded-For");
        if !UsableForwardedFor(ip) then Ok(req.remoteAddr)
        else
          var pieces := JavaStrings.Split(ip.value, ',');
          if pieces == [] then Err(IndexOutOfBounds) else Ok(JavaStrings.Trim(pieces[0]))
    }
  }

  /** getClientIp fails only for a forwarded-for header made entirely of commas. */
  lemma ClientIpFailsOnlyOnCommas(a: Ambient)
    ensures GetClientIp(a).Err? <==>
      a.request.Some? && UsableForwardedFor(Header(a.request.value, "X-Forwarded-For"))
      && forall i :: 0 <= i < |Header(a.request.value, "X-Forwarded-For").value| ==> Header(a.request.value, "X-Forwarded-For").value[i] == ','
  {
    if a.request.Some? && UsableForwardedFor(Header(a.request.value, "X-Forwarded-For")) {
      JavaStrings.SplitEmptyIff(Header(a.request.value, "X-Forwarded-For").value, ',');
    }
  }

  /** A forwarded-for value without a comma names the client directly, trimmed. */
  lemma ClientIpSingleHop(a: Ambient)
    requires a.request.Some? && UsableForwardedFor(Header(a.request.value, "X-Forwarded-For"))
    requires ',' !in Header(a.request.value, "X-Forwarded-For").value
    ensures GetClientIp(a) == Ok(JavaStrings.Trim(Header(a.request.value, "X-Forwarded-For").value))
  {
  }

  /** getUserAgent. */
  function GetUserAgent(a: Ambient): (r: string)
    ensures a.request.Some? && "User-Agent" in a.request.value.headers ==> r == a.request.value.headers["User-Agent"]
    ensures a.request.None? || "User-Agent" !in a.request.value.headers ==> r == UnknownUserAgent
  {
    if a.request.Some? && "User-Agent" in a.request.value.headers then a.request.value.headers["User-Agent"]
    else UnknownUserAgent
  }

  /** getChannel: the prefixes are tried admin-API, then API, then admin; anything else is the web. */
  function GetChannel(a: Ambient): (r: ChannelType)
    ensures r == UNKNOWN <==> a.request.None? || a.properties.None?
    ensures r == ADMIN_API ==> a.properties.value.adminApiPrefix <= a.request.value.uri
    ensures r == API ==> a.properties.value.apiPrefix <= a.request.value.uri
                         && !(a.properties.value.adminApiPrefix <= a.request.value.uri)
    ensures r == ADMIN ==> a.properties.value.adminPrefix <= a.request.value.uri
                           && !(a.properties.value.adminApiPrefix <= a.request.value.uri)
                           && !(a.properties.value.apiPrefix <= a.request.value.uri)
    ensures r == WEB ==> !(a.properties.value.adminApiPrefix <= a.request.value.uri)
                         && !(a.properties.value.apiPrefix <= a.request.value.uri)
                         && !(a.properties.value.adminPrefix <= a.request.value.uri)
  {
    match a.request {
      case None => UNKNOWN
      case Some(req) =>
        match a.properties {
          case None => UNKNOWN
          case Some(cfg) =>
            if JavaStrings.StartsWith(req.uri, cfg.adminApiPrefix) then ADMIN_API
            else if JavaStrings.StartsWith(req.uri, cfg.apiPrefix) then API
            else if JavaStrings.StartsWith(req.uri, cfg.adminPrefix) then ADMIN
            else WEB
        }
    }
  }

  /** With the default prefixes, the admin API wins over the API prefix it extends. */
  lemma DefaultChannels(a: Ambient, rest: string)
    requires a.request.Some? && a.properties == Some(DefaultChannelConfig())
    ensures a.request.value.uri == "/api/admin" + rest ==> GetChannel(a) == ADMIN_API
    ensures a.request.value.uri == "/api/" + rest && !("/api/admin" <= a.request.value.uri) ==> GetChannel(a) == API
  {
    if a.request.value.uri == "/api/" + rest {
      assert "/api" <= a.request.value.uri;
    }
  }

  /** getSiteCode: the bound code unless it is absent or blank. */
  function GetSiteCode(a: Ambient): (r: string)
    ensures a.siteCode.Some? && JavaStrings.HasText(a.siteCode.value) ==> r == a.siteCode.value
    ensures a.siteCode.None? || JavaStrings.IsBlank(a.siteCode.value) ==> r == DefaultSiteCode
    ensures JavaStrings.HasText(r)
  {
    if a.siteCode.Some? && !JavaStrings.IsBlank(a.siteCode.value) then a.siteCode.value
    else
      assert !JavaStrings.IsWhitespace(DefaultSiteCode[0]);
      DefaultSiteCode
  }

  /** getTenantInfo. */
  function GetTenantInfo(a: Ambient): Option<TenantInfo> {
    a.tenant
  }

  /** getUser: a principal only for a present, authenticated, non-anonymous authentication holding one. */
  function GetUser(a: Ambient): (r: Option<CustomUserDetails>)
    ensures r.Some? <==> a.auth.Some? && a.auth.value.authenticated && !a.auth.value.anonymousToken
                         && a.auth.value.principal.Member?
    ensures r.Some? ==> r.value == a.auth.value.principal.details
  {
    match a.auth {
      case None => None
      case Some(auth) =>
        if !auth.authenticated || auth.anonymousToken then None
        else match auth.principal {
          case Member(d) => Some(d)
          case _ => None
        }
    }
  }

  /** getUserId: empty without a user, and also for a principal whose user id is null. */
  function GetUserId(a: Ambient): (r: Option<int>)
    ensures r.Some? <==> GetUser(a).Some? && GetUser(a).value.userId.Some?
    ensures r.Some? ==> r == GetUser(a).value.userId
  {
    if GetUser(a).Some? then GetUser(a).value.userId else None
  }

  /** getRequiredUserId. */
  function GetRequiredUserId(a: Ambient): (r: Result<int, NoUser>)
    ensures r.Ok? <==> GetUserId(a).Some?
    ensures r.Ok? ==> r.value == GetUserId(a).value
    ensures r.Err? ==> r.error == NoUser(UserRequiredMessage)
  {
    match GetUserId(a) {
      case Some(id) => Ok(id)
      case None => Err(NoUser(UserRequiredMessage))
    }
  }

  /** getUsername: the nickname, or "Guest" with no user. */
  function GetUsername(a: Ambient): (r: string)
    ensures GetUser(a).Some? ==> r == GetUser(a).value.nickname
    ensures GetUser(a).None? ==> r == GuestName
  {
    if GetUser(a).Some? then GetUser(a).value.nickname else GuestName
  }

  /** The authority a role name stands for: "ROLE_" is added unless already there. */
  function TargetRole(roleName: string): (r: string)
    ensures JavaStrings.StartsWith(r, RolePrefix)
    ensures JavaStrings.StartsWith(roleName, RolePrefix) ==> r == roleName
    ensures !JavaStrings.StartsWith(roleName, RolePrefix) ==> r == RolePrefix + roleName
  {
    if JavaStrings.StartsWith(roleName, RolePrefix) then roleName else RolePrefix + roleName
  }

  /** hasRole: the user holds the authority the name stands for; false without a user. */
  predicate HasRole(a: Ambient, roleName: string) {
    GetUser(a).Some? && TargetRole(roleName) in GetUser(a).value.authorities
  }

  /** isAdmin. */
  predicate IsAdmin(a: Ambient) {
    HasRole(a, "ADMIN")
  }

  /** isAuthenticated. */
  predicate IsAuthenticated(a: Ambient) {
    GetUser(a).Some?
  }

  /** A role can be asked for with or without its prefix. */
  lemma HasRoleEitherSpelling(a: Ambient, name: string)
    ensures !JavaStrings.StartsWith(name, RolePrefix) ==> (HasRole(a, name) <==> HasRole(a, RolePrefix + name))
    ensures !HasRole(a, name) || GetUser(a).Some?
  {
    assert JavaStrings.StartsWith(RolePrefix + name, RolePrefix);
  }

  /** A user signed in through the principal constructor has exactly its own role. */
  lemma PrincipalHasItsRole(a: Ambient, role: Accounts.Role, other: Accounts.Role)
    requires GetUser(a).Some? && GetUser(a).value.authorities == [Accounts.RoleKey(role)]
    ensures HasRole(a, Accounts.RoleName(role))
    ensures other != role ==> !HasRole(a, Accounts.RoleName(other))
  {
    Accounts.RoleKeyInjective(role, other);
    RoleNameUnprefixed(role);
    RoleNameUnprefixed(other);
  }

  /** No role name starts with the prefix itself. */
  lemma RoleNameUnprefixed(r: Accounts.Role)
    ensures !JavaStrings.StartsWith(Accounts.RoleName(r), RolePrefix)
  {
    assert Accounts.RoleName(r)[0] != 'R';
  }

  /** isAjaxRequest: X-Requested-With is XMLHttpRequest, or Accept is exactly application/json. */
  predicate IsAjaxRequest(a: Ambient) {
    a.request.Some?
    && (Header(a.request.value, "X-Requested-With") == Some("XMLHttpRequest")
        || Header(a.request.value, "Accept") == Some("application/json"))
  }

  /**
   * The Accept test is an exact comparison: a JSON type with a parameter is
   * not an Ajax request, and without a request nothing is.
   */
  lemma AcceptIsComparedExactly(a: Ambient)
    ensures a.request.None? ==> !IsAjaxRequest(a)
    ensures (a.request.Some? && "X-Requested-With" !in a.request.value.headers
             && Header(a.request.value, "Accept") == Some("application/json;charset=UTF-8")) ==> !IsAjaxRequest(a)
  {
    var json := "application/json";
    assert |json + ";charset=UTF-8"| != |json|;
  }

  /** isMaintenanceMode, through the tenant binding. */
  predicate IsMaintenanceMode(a: Ambient) {
    TenantThread.MaintenanceMode(a.tenant)
  }

  /** isReadOnlyMode, through the tenant binding. */
  predicate IsReadOnlyMode(a: Ambient) {
    TenantThread.ReadOnlyMode(a.tenant)
  }
}
