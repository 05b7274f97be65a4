/**
 * The cache-aside lookup from a site code to the tenant's request-time
 * metadata (the "tenant_meta" cache in front of the tenant table).
 */
module TenantMetadata {
  import opened Wrappers
  import opened TenantDomain
  import TenantStore

  const UnknownSiteCodePrefix := "Unknown Site Code: "

  /** The IllegalArgumentException raised for a site code with no tenant. */
  datatype LookupError = UnknownSiteCode(message: string)

  /** mapToInfo: the six copied fields; the features slot is left empty. */
  function MapToInfo(t: TenantRecord): TenantInfo {
    TenantInfo(t.id, t.siteCode, t.name, t.themeName, t.maintenance, t.readOnly, None)
  }

  /** The metadata depends on nothing but the six copied fields. */
  lemma MapToInfoIgnoresRest(a: TenantRecord, b: TenantRecord)
    ensures MapToInfo(a) == MapToInfo(b) <==>
      a.id == b.id && a.siteCode == b.siteCode && a.name == b.name
      && a.themeName == b.themeName && a.maintenance == b.maintenance && a.readOnly == b.readOnly
  {
  }

  /** What a lookup in the table alone yields. */
  function FromStore(rows: seq<TenantRecord>, siteCode: string): (r: Result<TenantInfo, LookupError>)
    ensures r.Ok? <==> exists i :: 0 <= i < |rows| && rows[i].siteCode == siteCode
    ensures r.Ok? ==> exists t :: t in rows && t.siteCode == siteCode && r.value == MapToInfo(t)
    ensures r.Ok? ==> r.value.siteCode == siteCode && r.value.features == None
    ensures r.Err? ==> r.error == UnknownSiteCode(UnknownSiteCodePrefix + siteCode)
  {
    match TenantStore.FirstWithSiteCode(rows, siteCode) {
      case Some(t) => Ok(MapToInfo(t))
      case None => Err(UnknownSiteCode(UnknownSiteCodePrefix + siteCode))
    }
  }

  /** What getTenantInfo answers: a cached entry if there is one, otherwise the table. */
  function Lookup(cache: map<string, TenantInfo>, rows: seq<TenantRecord>, siteCode: string): (r: Result<TenantInfo, LookupError>)
    ensures siteCode in cache ==> r == Ok(cache[siteCode])
    ensures siteCode !in cache ==> r == FromStore(rows, siteCode)
  {
    if siteCode in cache then Ok(cache[siteCode]) else FromStore(rows, siteCode)
  }

  /** Every cached entry is stored under its own site code. */
  ghost predicate KeyedBySiteCode(cache: map<string, TenantInfo>) {
    forall k :: k in cache ==> cache[k].siteCode == k
  }

  /** Under a well-keyed cache, an answer always belongs to the site code asked for. */
  lemma LookupAnswersSiteCode(cache: map<string, TenantInfo>, rows: seq<TenantRecord>, siteCode: string)
    requires KeyedBySiteCode(cache)
    requires Lookup(cache, rows, siteCode).Ok?
    ensures Lookup(cache, rows, siteCode).value.siteCode == siteCode
  {
  }

  /** After an eviction the next lookup goes to the table again. */
  lemma EvictedLookupReloads(cache: map<string, TenantInfo>, rows: seq<TenantRecord>, siteCode: string, other: string)
    requires other != siteCode
    ensures Lookup(cache - {siteCode}, rows, siteCode) == FromStore(rows, siteCode)
    ensures Lookup(cache - {siteCode}, rows, other) == Lookup(cache, rows, other)
  {
  }

  /**
   * A cached answer survives changes to the table: a tenant renamed after its
   * metadata was cached is still reported under its old name until eviction.
   */
  lemma CachedAnswerIgnoresStore(cache: map<string, TenantInfo>, rows: seq<TenantRecord>, rows2: seq<TenantRecord>, siteCode: string)
    requires Lookup(cache, rows, siteCode).Ok?
    ensures var v := Lookup(cache, rows, siteCode).value;
      Lookup(cache[siteCode := v], rows2, siteCode) == Ok(v)
  {
  }

  class TenantMetadataProvider {
    var cache: map<string, TenantInfo>

    ghost predicate Valid()
      reads this
    {
      KeyedBySiteCode(cache)
    }

    constructor ()
      ensures Valid() && cache == map[]
    {
      cache := map[];
    }

    /**
     * getTenantInfo: answers from the cache when it can, otherwise from the
     * table, and caches only a found tenant; an unknown site code fails and
     * leaves the cache as it was.
     */
    method GetTenantInfo(rows: seq<TenantRecord>, siteCode: string) returns (r: Result<TenantInfo, LookupError>)
      requires Valid()
      modifies this
      ensures Valid()
      ensures r == Lookup(old(cache), rows, siteCode)
      ensures r.Ok? ==> cache == old(cache)[siteCode := r.value]
      ensures r.Err? ==> cache == old(cache)
    {
      if siteCode in cache {
        return Ok(cache[siteCode]);
      }
      r := FromStore(rows, siteCode);
      if r.Ok? {
        cache := cache[siteCode := r.value];
      }
    }

    /** evictCache: drops this site code's entry and no other. */
    method EvictCache(siteCode: string)
      requires Valid()
      modifies this
      ensures Valid()
      ensures cache == old(cache) - {siteCode}
    {
      cache := cache - {siteCode};
    }
  }
}
