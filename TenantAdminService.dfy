/**
 * The administrative operations on the tenant table. Each successful change
 * rebuilds the resolver's rules, so the resolver always reflects the table.
 */
module TenantAdministration {
  import opened Wrappers
  import opened TenantDomain
  import opened TenantStore
  import TenantResolution

  const DuplicateDomainPrefix := "이미 등록된 도메인 패턴입니다: "
  const DuplicateSiteCodePrefix := "이미 존재하는 사이트 코드입니다: "
  const UnknownTenantIdMessage := "존재하지 않는 테넌트 ID입니다."

  /** The IllegalArgumentExceptions the service raises. */
  datatype AdminError = DuplicateDomain(message: string) | DuplicateSiteCode(message: string) | UnknownTenantId(message: string)

  /** TenantDto.CreateRequest. */
  datatype CreateRequest = CreateRequest(
    domainPattern: string,
    siteCode: string,
    name: string,
    description: Option<string>,
    themeName: Option<string>,
    features: Option<TenantFeatures>)

  /** TenantDto.UpdateRequest. */
  datatype UpdateRequest = UpdateRequest(
    name: string,
    description: Option<string>,
    themeName: Option<string>,
    features: Option<TenantFeatures>)

  /** The row a successful create stores: the request's theme and features are not passed on. */
  function CreatedRow(req: CreateRequest, id: int): (r: TenantRecord)
    ensures r.id == Some(id) && r.domainPattern == req.domainPattern && r.siteCode == req.siteCode
    ensures r.name == req.name && r.description == req.description
    ensures r.themeName == DefaultTheme && !r.maintenance && !r.readOnly
  {
    TenantRecord(Some(id), req.siteCode, req.domainPattern, req.name, req.description, ThemeOrDefault(None), false, false)
  }

  /** The resolver's rules and pattern order are the ones refreshRules derives from these rows. */
  ghost predicate ReflectsStore(resolver: TenantResolution.DomainTenantResolver, rows: seq<TenantRecord>)
    reads resolver
  {
    resolver.cachedRules == TenantResolution.RulesOf(TenantResolution.SortByPriority(rows))
    && resolver.sortedPatterns == TenantResolution.PatternsOf(TenantResolution.SortByPriority(rows))
  }

  /**
   * Rules rebuilt from a table with unique indexes hold exactly the table's
   * domain patterns, each mapped to its own site code.
   */
  lemma RulesCoverStore(rows: seq<TenantRecord>)
    requires Unique(rows)
    ensures forall t :: t in rows ==>
      var rules := TenantResolution.RulesOf(TenantResolution.SortByPriority(rows));
      t.domainPattern in rules && rules[t.domainPattern] == t.siteCode
    ensures forall p :: p in TenantResolution.RulesOf(TenantResolution.SortByPriority(rows)) ==>
      exists t :: t in rows && t.domainPattern == p
  {
    TenantResolution.RefreshedRulesReflectStore(rows);
  }

  /** A refresh from the table: the rules are rebuilt from its rows and every cached host result is dropped. */
  ghost predicate Refreshed(resolver: TenantResolution.DomainTenantResolver, rows: seq<TenantRecord>)
    reads resolver
  {
    resolver.cachedRules == TenantResolution.RulesOf(TenantResolution.SortByPriority(rows))
    && resolver.resultCache == map[]
  }

  class TenantAdminService {
    const tenants: TenantRepository
    const resolver: TenantResolution.DomainTenantResolver

    /** The table keeps its unique indexes and the resolver is in step with it. */
    ghost predicate Valid()
      reads this, tenants, resolver
    {
      tenants.Valid() && resolver.Valid() && ReflectsStore(resolver, tenants.rows)
    }

    constructor (tenants: TenantRepository, resolver: TenantResolution.DomainTenantResolver)
      requires tenants.Valid() && resolver.Valid() && ReflectsStore(resolver, tenants.rows)
      ensures Valid() && this.tenants == tenants && this.resolver == resolver
    {
      this.tenants := tenants;
      this.resolver := resolver;
    }

    /** Rebuild the resolver from the current table. */
    method Refresh()
      requires tenants.Valid() && resolver.Valid()
      modifies resolver
      ensures Valid()
      ensures resolver.cachedRules == TenantResolution.RulesOf(TenantResolution.SortByPriority(tenants.rows))
      ensures resolver.resultCache == map[]
    {
      resolver.RefreshRules(Ok(tenants.rows));
    }

    /**
     * createTenant: a registered domain pattern is refused first, then a
     * registered site code; otherwise the new row is appended with the
     * default theme and the resolver is refreshed.
     */
    method CreateTenant(req: CreateRequest) returns (r: Result<TenantRecord, AdminError>)
      requires Valid()
      modifies tenants, resolver
      ensures Valid()
      ensures old(tenants.ExistsByDomainPattern(req.domainPattern)) ==>
        r == Err(DuplicateDomain(DuplicateDomainPrefix + req.domainPattern))
      ensures !old(tenants.ExistsByDomainPattern(req.domainPattern)) && old(tenants.ExistsBySiteCode(req.siteCode)) ==>
        r == Err(DuplicateSiteCode(DuplicateSiteCodePrefix + req.siteCode))
      ensures r.Err? ==> tenants.rows == old(tenants.rows) && unchanged(resolver)
      ensures r.Ok? ==> r.value == CreatedRow(req, old(tenants.nextId)) && tenants.rows == old(tenants.rows) + [r.value]
      ensures r.Ok? ==> req.domainPattern in resolver.cachedRules && resolver.cachedRules[req.domainPattern] == req.siteCode
      ensures r.Ok? ==> Refreshed(resolver, tenants.rows)
    {
      if tenants.ExistsByDomainPattern(req.domainPattern) {
        return Err(DuplicateDomain(DuplicateDomainPrefix + req.domainPattern));
      }
      if tenants.ExistsBySiteCode(req.siteCode) {
        return Err(DuplicateSiteCode(DuplicateSiteCodePrefix + req.siteCode));
      }
      var tenant := new Tenant.Build(req.siteCode, req.domainPattern, req.name, req.description, None);
      var saved := tenants.Save(tenant.Snapshot());
      Refresh();
      RulesCoverStore(tenants.rows);
      r := Ok(saved.value);
    }

    /**
     * updateTenant: an unknown id is refused; otherwise name and description
     * are overwritten (no theme is passed, so the theme stays) and the
     * resolver is refreshed.
     */
    method UpdateTenant(id: int, req: UpdateRequest) returns (r: Result<TenantRecord, AdminError>)
      requires Valid()
      modifies tenants, resolver
      ensures Valid()
      ensures IndexOfId(old(tenants.rows), id).None? ==>
        r == Err(UnknownTenantId(UnknownTenantIdMessage)) && tenants.rows == old(tenants.rows) && unchanged(resolver)
      ensures IndexOfId(old(tenants.rows), id).Some? ==>
        var k := IndexOfId(old(tenants.rows), id).value;
        r == Ok(old(tenants.rows)[k].(name := req.name, description := req.description))
        && tenants.rows == old(tenants.rows)[k := r.value]
      ensures r.Ok? ==> Refreshed(resolver, tenants.rows)
    {
      var k := IndexOfId(tenants.rows, id);
      if k.None? {
        return Err(UnknownTenantId(UnknownTenantIdMessage));
      }
      var tenant := new Tenant.Load(tenants.rows[k.value]);
      tenant.Update(req.name, req.description, None);
      var updated := tenant.Snapshot();
      assert !Clashes(tenants.rows, updated, Some(k.value));
      var saved := tenants.Save(updated);
      Refresh();
      r := Ok(saved.value);
    }

    /** deleteTenant: an unknown id is refused; otherwise exactly that row goes and the resolver is refreshed. */
    method DeleteTenant(id: int) returns (r: Result<(), AdminError>)
      requires Valid()
      modifies tenants, resolver
      ensures Valid()
      ensures IndexOfId(old(tenants.rows), id).None? ==>
        r == Err(UnknownTenantId(UnknownTenantIdMessage)) && tenants.rows == old(tenants.rows) && unchanged(resolver)
      ensures IndexOfId(old(tenants.rows), id).Some? ==>
        r == Ok(()) && tenants.rows == RemoveAt(old(tenants.rows), IndexOfId(old(tenants.rows), id).value)
      ensures IndexOfId(old(tenants.rows), id).Some? ==>
        old(tenants.rows)[IndexOfId(old(tenants.rows), id).value].domainPattern !in resolver.cachedRules
      ensures r.Ok? ==> Refreshed(resolver, tenants.rows)
    {
      var k := IndexOfId(tenants.rows, id);
      if k.None? {
        return Err(UnknownTenantId(UnknownTenantIdMessage));
      }
      var gone := tenants.rows[k.value];
      tenants.Delete(id);
      Refresh();
      RulesCoverStore(tenants.rows);
      assert forall t :: t in tenants.rows ==> t.domainPattern != gone.domainPattern;
      r := Ok(());
    }
  }
}
