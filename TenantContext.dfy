/**
 * The per-thread tenant binding: two cells, the current site code and the
 * current tenant metadata, that the tenant filter sets and clears.
 */
module TenantThread {
  import opened Wrappers
  import opened TenantDomain

  /** isMaintenanceMode over a possibly unbound tenant. */
  predicate MaintenanceMode(t: Option<TenantInfo>) {
    t.Some? && t.value.maintenance
  }

  /** isReadOnlyMode over a possibly unbound tenant: maintenance also counts as read-only. */
  predicate ReadOnlyMode(t: Option<TenantInfo>) {
    t.Some? && (t.value.readOnly || t.value.maintenance)
  }

  /** A site in maintenance is always read-only, and nothing holds without a tenant. */
  lemma MaintenanceImpliesReadOnly(t: Option<TenantInfo>)
    ensures MaintenanceMode(t) ==> ReadOnlyMode(t)
    ensures t.None? ==> !MaintenanceMode(t) && !ReadOnlyMode(t)
    ensures ReadOnlyMode(t) && !MaintenanceMode(t) ==> t.value.readOnly
  {
  }

  class TenantContext {
    var siteCode: Option<string>
    var tenant: Option<TenantInfo>

    /** Both cells are set together, so the site code always belongs to the bound tenant. */
    ghost predicate Valid()
      reads this
    {
      tenant.Some? ==> siteCode == Some(tenant.value.siteCode)
    }

    constructor ()
      ensures Valid()
      ensures siteCode == None && tenant == None
    {
      siteCode := None;
      tenant := None;
    }

    /** setContext: a null argument is ignored; otherwise both cells take the tenant's values. */
    method SetContext(info: Option<TenantInfo>)
      requires Valid()
      modifies this
      ensures Valid()
      ensures info.None? ==> siteCode == old(siteCode) && tenant == old(tenant)
      ensures info.Some? ==> siteCode == Some(info.value.siteCode) && tenant == info
    {
      if info.None? {
        return;
      }
      siteCode := Some(info.value.siteCode);
      tenant := info;
    }

    /** getSiteCode. */
    function GetSiteCode(): Option<string>
      reads this
    {
      siteCode
    }

    /** getTenant. */
    function GetTenant(): Option<TenantInfo>
      reads this
    {
      tenant
    }

    /** isMaintenanceMode. */
    predicate IsMaintenanceMode()
      reads this
    {
      MaintenanceMode(tenant)
    }

    /** isReadOnlyMode. */
    predicate IsReadOnlyMode()
      reads this
    {
      ReadOnlyMode(tenant)
    }

    /** clear: both cells are removed, so neither mode holds afterwards. */
    method Clear()
      modifies this
      ensures Valid()
      ensures siteCode == None && tenant == None
      ensures !IsMaintenanceMode() && !IsReadOnlyMode()
    {
      siteCode := None;
      tenant := None;
    }
  }
}
