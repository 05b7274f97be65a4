/**
 * The per-thread menu binding and the three interceptors that run before
 * every handler, in registration order: resolution (1) binds the menu that
 * matches the request, access (2) answers 404 for an inaccessible menu, and
 * the ACL check (3, skipped on the tenant-excluded paths) demands one of the
 * menu's read roles and clears the binding after the request.
 *
 * The framework runs an interceptor's afterCompletion only when its
 * preHandle returned true; one that returned false or threw, and every one
 * after it, gets none.
 */
module MenuInterception {
  import opened Wrappers
  import AmbientContext
  import TenantThread
  import TenantFiltering
  import JavaStrings
  import opened MenuDomain
  import opened MenuResolution
  import opened MenuStore

  /** MenuContext: one cell holding the menu of the request on this thread. */
  class MenuContext {
    var current: Option<MenuRecord>

    constructor ()
      ensures current.None?
    {
      current := None;
    }

    /** set: a null menu is ignored, any other one replaces the binding. */
    method Set(menu: Option<MenuRecord>)
      modifies this
      ensures menu.Some? ==> current == menu
      ensures menu.None? ==> current == old(current)
    {
      if menu.Some? {
        current := menu;
      }
    }

    /** getCurrentMenu: empty exactly when nothing is bound. */
    function GetCurrentMenu(): (r: Option<MenuRecord>)
      reads this
      ensures r.None? <==> current.None?
      ensures r.Some? ==> r == current
    {
      current
    }

    /** clear. */
    method Clear()
      modifies this
      ensures current.None?
    {
      current := None;
    }
  }

  /** The resolution interceptor, reading the menus through the resolver. */
  class MenuResolutionInterceptor {
    const repository: MenuRepository

    constructor (repository: MenuRepository)
      ensures this.repository == repository
    {
      this.repository := repository;
    }

    /**
     * preHandle: always proceeds. Without a site code nothing is resolved or
     * bound; otherwise a resolved menu is bound in the context and returned as
     * the "currentMenu" request attribute, and with no match neither is set.
     */
    method PreHandle(tenant: TenantThread.TenantContext, context: MenuContext, uri: string)
      returns (proceed: bool, currentMenu: Option<MenuRecord>)
      modifies context
      ensures proceed
      ensures tenant.siteCode.None? ==> currentMenu.None?
      ensures tenant.siteCode.Some? ==> currentMenu == ResolveForSite(repository.rows, tenant.siteCode.value, uri)
      ensures currentMenu.Some? ==> context.current == currentMenu
      ensures currentMenu.None? ==> context.current == old(context.current)
    {
      proceed := true;
      currentMenu := None;
      if tenant.siteCode.None? {
        return;
      }
      currentMenu := ResolveForSite(repository.rows, tenant.siteCode.value, uri);
      context.Set(currentMenu);
    }
  }

  /** What the access interceptor's preHandle decides. */
  datatype AccessVerdict = Proceed | SendNotFound

  const NotFoundStatus := 404

  /**
   * The access interceptor's preHandle: 404 and stop exactly for a bound
   * menu that is not accessible; visibility and roles play no part.
   */
  function AccessPreHandle(current: Option<MenuRecord>): (r: AccessVerdict)
    ensures r == SendNotFound <==> current.Some? && !current.value.accessible
  {
    match current {
      case None => Proceed
      case Some(menu) => if !menu.accessible then SendNotFound else Proceed
    }
  }

  /** Only the accessible flag matters: two menus that agree on it get the same answer. */
  lemma AccessIgnoresRolesAndVisibility(m: MenuRecord, visible: bool, readRoles: Option<string>)
    ensures AccessPreHandle(Some(m.(visible := visible, readRoles := readRoles))) == AccessPreHandle(Some(m))
    ensures AccessPreHandle(None) == Proceed
  {
  }

  /** The AccessDeniedException the ACL check throws. */
  datatype AccessDenied = AccessDenied(message: string)

  const AclDeniedMessage := "해당 메뉴에 접근할 권한이 없습니다."

  /** The caller holds at least one of the roles. */
  predicate HoldsOneOf(a: AmbientContext.Ambient, roles: set<string>) {
    exists role :: role in roles && AmbientContext.HasRole(a, role)
  }

  /**
   * The ACL interceptor's preHandle: no menu, or an "ANONYMOUS" read role,
   * lets everyone through; otherwise an unauthenticated caller, or one holding
   * none of the read roles, is refused.
   */
  function AclPreHandle(current: Option<MenuRecord>, a: AmbientContext.Ambient): (r: Result<(), AccessDenied>)
    ensures r.Err? ==> r.error == AccessDenied(AclDeniedMessage)
    ensures r.Ok? <==> current.None? || AnonymousRole in ReadRoleSet(current.value)
                       || (AmbientContext.IsAuthenticated(a) && HoldsOneOf(a, ReadRoleSet(current.value)))
  {
    if current.None? then Ok(())
    else
      var requiredRoles := ReadRoleSet(current.value);
      if AnonymousRole in requiredRoles then Ok(())
      else if !AmbientContext.IsAuthenticated(a) || !HoldsOneOf(a, requiredRoles) then Err(AccessDenied(AclDeniedMessage))
      else Ok(())
  }

  /** A menu with no read role at all (blank or only commas) refuses every caller. */
  lemma EmptyReadRolesDenyEveryone(m: MenuRecord, a: AmbientContext.Ambient)
    requires ReadRoleSet(m) == {}
    ensures AclPreHandle(Some(m), a).Err?
  {
  }

  /** A menu readable by "ANONYMOUS" lets every caller through, signed in or not. */
  lemma AnonymousMenuOpenToAll(m: MenuRecord, a: AmbientContext.Ambient)
    requires AnonymousRole in ReadRoleSet(m)
    ensures AclPreHandle(Some(m), a) == Ok(())
  {
  }

  /**
   * The administrator page read-restricted to "ROLE_ADMIN": a caller with no
   * signed-in member, or a member without that authority, is refused, and a
   * member holding it passes.
   */
  lemma AdminMenuAcl(m: MenuRecord, a: AmbientContext.Ambient)
    requires m.readRoles == Some("ROLE_ADMIN")
    ensures AmbientContext.GetUser(a).None? ==> AclPreHandle(Some(m), a).Err?
    ensures AmbientContext.GetUser(a).Some? && "ROLE_ADMIN" !in AmbientContext.GetUser(a).value.authorities
            ==> AclPreHandle(Some(m), a).Err?
    ensures AmbientContext.GetUser(a).Some? && "ROLE_ADMIN" in AmbientContext.GetUser(a).value.authorities
            ==> AclPreHandle(Some(m), a) == Ok(())
  {
    var role := "ROLE_ADMIN";
    assert !JavaStrings.Trimmable(role[0]) && !JavaStrings.Trimmable(role[|role| - 1]);
    SingleRoleList(role);
    assert ReadRoleSet(m) == {role};
    assert AnonymousRole !in ReadRoleSet(m);
    assert JavaStrings.StartsWith(role, AmbientContext.RolePrefix);
    assert AmbientContext.TargetRole(role) == role;
    assert HoldsOneOf(a, ReadRoleSet(m)) <==> AmbientContext.HasRole(a, role);
  }

  /** The ACL interceptor's afterCompletion: clears the binding. */
  method AclAfterCompletion(context: MenuContext)
    modifies context
    ensures context.current.None?
  {
    context.Clear();
  }

  /** How a request leaves the interceptors. */
  datatype Outcome = Dispatched | NotFound | Denied(message: string)

  /** The outcome, the "currentMenu" attribute, and the binding left on the thread. */
  datatype Exchange = Exchange(outcome: Outcome, currentMenu: Option<MenuRecord>, menuAfter: Option<MenuRecord>)

  /** What the resolution interceptor binds: the resolved menu, or the binding already there. */
  function Bound(rows: seq<MenuRecord>, siteCode: Option<string>, uri: string, before: Option<MenuRecord>): Option<MenuRecord> {
    var resolved := if siteCode.None? then None else ResolveForSite(rows, siteCode.value, uri);
    if resolved.Some? then resolved else before
  }

  /** The "currentMenu" attribute the resolution interceptor sets. */
  function Attribute(rows: seq<MenuRecord>, siteCode: Option<string>, uri: string): Option<MenuRecord> {
    if siteCode.None? then None else ResolveForSite(rows, siteCode.value, uri)
  }

  /**
   * The three interceptors as registered: only a completed ACL preHandle
   * earns the ACL afterCompletion, so a 404, a refusal or an ACL-excluded
   * path leaves the menu bound on the thread.
   */
  function ChainAsWritten(rows: seq<MenuRecord>, siteCode: Option<string>, excluded: seq<string>, uri: string,
                          a: AmbientContext.Ambient, before: Option<MenuRecord>): Exchange
  {
    var bound := Bound(rows, siteCode, uri, before);
    var attribute := Attribute(rows, siteCode, uri);
    if AccessPreHandle(bound) == SendNotFound then Exchange(NotFound, attribute, bound)
    else if TenantFiltering.Excluded(excluded, uri) then Exchange(Dispatched, attribute, bound)
    else match AclPreHandle(bound, a) {
      case Err(denied) => Exchange(Denied(denied.message), attribute, bound)
      case Ok(_) => Exchange(Dispatched, attribute, None)
    }
  }

  /** As written, a bound inaccessible menu is answered 404 and stays bound. */
  lemma InaccessibleStaysBound(rows: seq<MenuRecord>, siteCode: Option<string>, excluded: seq<string>, uri: string,
                               a: AmbientContext.Ambient, before: Option<MenuRecord>, m: MenuRecord)
    requires Bound(rows, siteCode, uri, before) == Some(m) && !m.accessible
    ensures ChainAsWritten(rows, siteCode, excluded, uri, a, before) == Exchange(NotFound, Attribute(rows, siteCode, uri), Some(m))
  {
  }

  /** With nothing bound, no 404 is sent. */
  lemma UnboundIsNotNotFound(rows: seq<MenuRecord>, siteCode: Option<string>, excluded: seq<string>, uri: string,
                             a: AmbientContext.Ambient)
    requires Bound(rows, siteCode, uri, None) == None
    ensures ChainAsWritten(rows, siteCode, excluded, uri, a, None).outcome != NotFound
  {
    assert AccessPreHandle(None) == Proceed;
  }

  /**
   * As written, a 404 leaves the inaccessible menu bound, and the next
   * request on that thread that resolves no menu of its own (one without a
   * site, such as a tenant-excluded page, or one matching no pattern) is
   * answered 404 for that stale menu.
   */
  lemma StaleMenuAnswersNextRequest(rows: seq<MenuRecord>, site: string, excluded: seq<string>, uri: string,
                                    a: AmbientContext.Ambient, nextSite: Option<string>, nextUri: string,
                                    nextCaller: AmbientContext.Ambient, m: MenuRecord)
    requires ResolveForSite(rows, site, uri) == Some(m) && !m.accessible
    requires nextSite.None? || ResolveForSite(rows, nextSite.value, nextUri).None?
    ensures ChainAsWritten(rows, Some(site), excluded, uri, a, None) == Exchange(NotFound, Some(m), Some(m))
    ensures ChainAsWritten(rows, nextSite, excluded, nextUri, nextCaller, Some(m)).outcome == NotFound
    ensures ChainAsWritten(rows, nextSite, excluded, nextUri, nextCaller, None).outcome != NotFound
  {
    assert Bound(rows, Some(site), uri, None) == Some(m);
    assert Attribute(rows, Some(site), uri) == Some(m);
    InaccessibleStaysBound(rows, Some(site), excluded, uri, a, None, m);
    assert Bound(rows, nextSite, nextUri, Some(m)) == Some(m);
    InaccessibleStaysBound(rows, nextSite, excluded, nextUri, nextCaller, Some(m), m);
    assert Bound(rows, nextSite, nextUri, None) == None;
    UnboundIsNotNotFound(rows, nextSite, excluded, nextUri, nextCaller);
  }

  /**
   * As written, a refusal leaves the refused menu bound too, and the next
   * request that resolves no menu, on a path the ACL check covers, is refused
   * for that menu, whoever makes it.
   */
  lemma StaleDenialAnswersNextRequest(rows: seq<MenuRecord>, site: string, excluded: seq<string>, uri: string,
                                      a: AmbientContext.Ambient, nextUri: string, m: MenuRecord)
    requires ResolveForSite(rows, site, uri) == Some(m) && m.accessible
    requires !TenantFiltering.Excluded(excluded, uri) && AclPreHandle(Some(m), a).Err?
    requires !TenantFiltering.Excluded(excluded, nextUri)
    ensures ChainAsWritten(rows, Some(site), excluded, uri, a, None).menuAfter == Some(m)
    ensures ChainAsWritten(rows, None, excluded, nextUri, a, Some(m)).outcome == Denied(AclDeniedMessage)
    ensures ChainAsWritten(rows, None, excluded, nextUri, a, None).outcome == Dispatched
  {
  }

  /**
   * The intended pipeline: the same decisions, with the binding cleared on
   * every exit. The clearing sits in the resolution interceptor's
   * afterCompletion, which always runs because its preHandle always proceeds.
   */
  function Chain(rows: seq<MenuRecord>, siteCode: Option<string>, excluded: seq<string>, uri: string,
                 a: AmbientContext.Ambient, before: Option<MenuRecord>): (e: Exchange)
    ensures e.menuAfter.None?
  {
    var bound := Bound(rows, siteCode, uri, before);
    var attribute := Attribute(rows, siteCode, uri);
    if AccessPreHandle(bound) == SendNotFound then Exchange(NotFound, attribute, None)
    else if TenantFiltering.Excluded(excluded, uri) then Exchange(Dispatched, attribute, None)
    else match AclPreHandle(bound, a) {
      case Err(denied) => Exchange(Denied(denied.message), attribute, None)
      case Ok(_) => Exchange(Dispatched, attribute, None)
    }
  }

  /**
   * The intended pipeline decides as the registered one does on a fresh
   * thread, and since it never leaves a menu bound, every request is decided
   * as on a fresh thread whatever ran before it.
   */
  lemma ChainAlwaysClears(rows: seq<MenuRecord>, excluded: seq<string>,
                          siteCode: Option<string>, uri: string, a: AmbientContext.Ambient, before: Option<MenuRecord>,
                          nextSite: Option<string>, nextUri: string, nextCaller: AmbientContext.Ambient)
    ensures Chain(rows, siteCode, excluded, uri, a, None).outcome == ChainAsWritten(rows, siteCode, excluded, uri, a, None).outcome
    ensures Chain(rows, siteCode, excluded, uri, a, None).currentMenu == ChainAsWritten(rows, siteCode, excluded, uri, a, None).currentMenu
    ensures var first := Chain(rows, siteCode, excluded, uri, a, before);
            Chain(rows, nextSite, excluded, nextUri, nextCaller, first.menuAfter)
            == Chain(rows, nextSite, excluded, nextUri, nextCaller, None)
  {
    var bound := Bound(rows, siteCode, uri, None);
    if AccessPreHandle(bound) != SendNotFound && !TenantFiltering.Excluded(excluded, uri) {
      match AclPreHandle(bound, a) {
        case Err(_) =>
        case Ok(_) =>
      }
    }
    var first := Chain(rows, siteCode, excluded, uri, a, before);
    assert first.menuAfter == None;
  }

  /** The resolution interceptor's afterCompletion in the intended pipeline. */
  method ResolutionAfterCompletion(context: MenuContext)
    modifies context
    ensures context.current.None?
  {
    context.Clear();
  }

  /** The handler chain of one request: the interceptors in order, completions in reverse. */
  class MenuPipeline {
    const resolution: MenuResolutionInterceptor
    const excludedPaths: seq<string>

    constructor (resolution: MenuResolutionInterceptor, excludedPaths: seq<string>)
      ensures this.resolution == resolution && this.excludedPaths == excludedPaths
    {
      this.resolution := resolution;
      this.excludedPaths := excludedPaths;
    }

    /** One request through the intended pipeline. */
    method Handle(tenant: TenantThread.TenantContext, context: MenuContext, uri: string, a: AmbientContext.Ambient)
      returns (e: Exchange)
      modifies context
      ensures e == Chain(resolution.repository.rows, tenant.siteCode, excludedPaths, uri, a, old(context.current))
      ensures context.current == e.menuAfter
    {
      var _, attribute := resolution.PreHandle(tenant, context, uri);
      if AccessPreHandle(context.GetCurrentMenu()) == SendNotFound {
        ResolutionAfterCompletion(context);
        return Exchange(NotFound, attribute, None);
      }
      var aclApplies := !TenantFiltering.Excluded(excludedPaths, uri);
      if aclApplies {
        var acl := AclPreHandle(context.GetCurrentMenu(), a);
        if acl.Err? {
          ResolutionAfterCompletion(context);
          return Exchange(Denied(acl.error.message), attribute, None);
        }
      }
      // the handler runs here
      if aclApplies {
        AclAfterCompletion(context);
      }
      ResolutionAfterCompletion(context);
      e := Exchange(Dispatched, attribute, None);
    }
  }
}
