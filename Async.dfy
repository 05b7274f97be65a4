/**
 * The MdcTaskDecorator of the asynchronous executor: at decoration time, on
 * the submitting (parent) thread, it copies the logging context and the bound
 * tenant; when the decorated runnable runs on its own (child) thread it binds the copies,
 * runs the body, and finally empties both of the child's contexts.
 *
 * Threads are not modelled: the parent's and the child's contexts are two
 * separate pairs of objects.
 */
module AsyncPropagation {
  import opened Wrappers
  import opened TenantDomain
  import TenantThread
  import DiagnosticContext

  /** The decorated runnable: the copies it carries (null when there was nothing to copy). */
  datatype DecoratedTask = DecoratedTask(contextMap: Option<map<string, string>>, tenantInfo: Option<TenantInfo>)

  /** What the body sees on the child thread. */
  datatype ChildView = ChildView(entries: map<string, string>, siteCode: Option<string>, tenant: Option<TenantInfo>)

  /** The copies taken from a parent holding these entries and this tenant. */
  function Capture(entries: map<string, string>, tenant: Option<TenantInfo>): (t: DecoratedTask)
    ensures t.contextMap.None? <==> entries == map[]
    ensures t.contextMap.Some? ==> t.contextMap.value == entries
    ensures t.tenantInfo == tenant
  {
    DecoratedTask(if entries == map[] then None else Some(entries), tenant)
  }

  /**
   * What the body sees on a child whose contexts held these values: each
   * copy replaces the child's own context, a missing copy leaves it as it was.
   */
  function Restored(t: DecoratedTask, entries: map<string, string>, siteCode: Option<string>,
                    tenant: Option<TenantInfo>): (v: ChildView)
    ensures t.contextMap.Some? ==> v.entries == t.contextMap.value
    ensures t.contextMap.None? ==> v.entries == entries
    ensures t.tenantInfo.Some? ==> v.tenant == t.tenantInfo && v.siteCode == Some(t.tenantInfo.value.siteCode)
    ensures t.tenantInfo.None? ==> v.tenant == tenant && v.siteCode == siteCode
  {
    ChildView(if t.contextMap.Some? then t.contextMap.value else entries,
              if t.tenantInfo.Some? then Some(t.tenantInfo.value.siteCode) else siteCode,
              if t.tenantInfo.Some? then t.tenantInfo else tenant)
  }

  /**
   * On a fresh child thread the body sees exactly the parent's logging
   * entries and tenant as they were at decoration, the site code included.
   */
  lemma FreshChildSeesParent(entries: map<string, string>, siteCode: Option<string>, tenant: Option<TenantInfo>)
    requires tenant.Some? ==> siteCode == Some(tenant.value.siteCode)
    requires tenant.None? ==> siteCode.None?
    ensures Restored(Capture(entries, tenant), map[], None, None) == ChildView(entries, siteCode, tenant)
  {
    if entries == map[] {
      assert Capture(entries, tenant).contextMap.None?;
    }
  }

  /**
   * decorate: reads the parent's contexts and changes nothing; the copies
   * are taken now, so later changes on the parent do not reach the decorated runnable.
   */
  method Decorate(parentMdc: DiagnosticContext.Mdc, parentTenant: TenantThread.TenantContext)
    returns (t: DecoratedTask)
    ensures t == Capture(parentMdc.entries, parentTenant.tenant)
  {
    var contextMap := parentMdc.CopyOfContextMap();
    var tenantInfo := parentTenant.GetTenant();
    t := DecoratedTask(contextMap, tenantInfo);
  }

  /**
   * The decorated runnable on the child thread: the copies are bound (a null
   * copy is not), the body runs and sees them, and in the finally block the
   * child's tenant context and whole logging context are emptied, whether or
   * not the body throws; the body's exception propagates.
   */
  method Run(t: DecoratedTask, childMdc: DiagnosticContext.Mdc, childTenant: TenantThread.TenantContext,
             bodyThrows: bool)
    returns (seen: ChildView, escaped: bool)
    requires childTenant.Valid()
    modifies childMdc, childTenant
    ensures seen == Restored(t, old(childMdc.entries), old(childTenant.siteCode), old(childTenant.tenant))
    ensures escaped == bodyThrows
    ensures childMdc.entries == map[]
    ensures childTenant.Valid() && childTenant.siteCode.None? && childTenant.tenant.None?
  {
    if t.contextMap.Some? {
      childMdc.SetContextMap(t.contextMap.value);
    }
    if t.tenantInfo.Some? {
      childTenant.SetContext(t.tenantInfo);
    }
    // the body runs here
    seen := ChildView(childMdc.entries, childTenant.GetSiteCode(), childTenant.GetTenant());
    escaped := bodyThrows;
    childTenant.Clear();
    childMdc.Clear();
  }

  /**
   * The asynchronous call end to end: the parent decorates, then changes its
   * own contexts before the decorated runnable starts; the fresh child still sees the
   * values of decoration time, and the parent keeps its own changes.
   */
  method SubmitThenChangeParent(parentMdc: DiagnosticContext.Mdc, parentTenant: TenantThread.TenantContext,
                                childMdc: DiagnosticContext.Mdc, childTenant: TenantThread.TenantContext,
                                key: string, value: string, bodyThrows: bool)
    returns (seen: ChildView)
    requires parentTenant.Valid() && childTenant.Valid()
    requires parentTenant.tenant.None? ==> parentTenant.siteCode.None?
    requires childMdc.entries == map[] && childTenant.siteCode.None? && childTenant.tenant.None?
    requires parentMdc != childMdc && parentTenant != childTenant
    modifies parentMdc, childMdc, childTenant
    ensures seen == ChildView(old(parentMdc.entries), old(parentTenant.siteCode), old(parentTenant.tenant))
    ensures parentMdc.entries == old(parentMdc.entries)[key := value]
    ensures parentTenant.siteCode == old(parentTenant.siteCode) && parentTenant.tenant == old(parentTenant.tenant)
  {
    var t := Decorate(parentMdc, parentTenant);
    parentMdc.Put(key, value);
    FreshChildSeesParent(old(parentMdc.entries), parentTenant.siteCode, parentTenant.tenant);
    var escaped;
    seen, escaped := Run(t, childMdc, childTenant, bodyThrows);
  }
}
