/**
 * The tenant entity (one site of the CMS), its feature flags and the
 * TenantInfo snapshot that request handling binds to the current thread.
 */
module TenantDomain {
  import opened Wrappers
  import JavaStrings

  const DefaultTheme := "default"

  /** Feature switches of a site; data only. */
  datatype TenantFeatures = TenantFeatures(
    boardModuleEnabled: bool,
    shopModuleEnabled: bool,
    loginVisible: bool,
    popupEnabled: bool,
    inquiryEnabled: bool)

  /** TenantFeatures.createDefault: the field initialisers. */
  function DefaultFeatures(): TenantFeatures {
    TenantFeatures(true, false, true, false, true)
  }

  /** The persistent state of one tenant row; `id` is empty until the row is saved. */
  datatype TenantRecord = TenantRecord(
    id: Option<int>,
    siteCode: string,
    domainPattern: string,
    name: string,
    description: Option<string>,
    themeName: string,
    maintenance: bool,
    readOnly: bool)

  /** The cached, read-only view of a tenant used while serving a request. */
  datatype TenantInfo = TenantInfo(
    id: Option<int>,
    siteCode: string,
    name: string,
    themeName: string,
    maintenance: bool,
    readOnly: bool,
    features: Option<TenantFeatures>)

  /** Whether an optional string is non-null and not blank. */
  predicate Present(s: Option<string>) {
    s.Some? && JavaStrings.HasText(s.value)
  }

  /** The theme a tenant ends up with for a requested theme name. */
  function ThemeOrDefault(requested: Option<string>): (r: string)
    ensures Present(requested) ==> r == requested.value
    ensures !Present(requested) ==> r == DefaultTheme
    ensures JavaStrings.HasText(r)
  {
    if Present(requested) then requested.value
    else
      assert !JavaStrings.IsWhitespace(DefaultTheme[0]);
      DefaultTheme
  }

  /** The entity as an object whose fields the service layer updates in place. */
  class Tenant {
    var id: Option<int>
    var siteCode: string
    var domainPattern: string
    var name: string
    var description: Option<string>
    var themeName: string
    var maintenance: bool
    var readOnly: bool

    /** The builder constructor: a blank or missing theme falls back to "default"; flags start false. */
    constructor Build(siteCode: string, domainPattern: string, name: string,
                      description: Option<string>, themeName: Option<string>)
      ensures this.id == None
      ensures this.siteCode == siteCode && this.domainPattern == domainPattern
      ensures this.name == name && this.description == description
      ensures this.themeName == ThemeOrDefault(themeName)
      ensures !this.maintenance && !this.readOnly
    {
      this.id := None;
      this.siteCode := siteCode;
      this.domainPattern := domainPattern;
      this.name := name;
      this.description := description;
      this.themeName := ThemeOrDefault(themeName);
      this.maintenance := false;
      this.readOnly := false;
    }

    /** An entity loaded from a stored row. */
    constructor Load(row: TenantRecord)
      ensures Snapshot() == row
    {
      id := row.id;
      siteCode := row.siteCode;
      domainPattern := row.domainPattern;
      name := row.name;
      description := row.description;
      themeName := row.themeName;
      maintenance := row.maintenance;
      readOnly := row.readOnly;
    }

    /** The entity's current field values. */
    function Snapshot(): TenantRecord
      reads this
    {
      TenantRecord(id, siteCode, domainPattern, name, description, themeName, maintenance, readOnly)
    }

    /** Tenant.update: name and description always; the theme only when a non-blank one is given. */
    method Update(name: string, description: Option<string>, themeName: Option<string>)
      modifies this
      ensures Snapshot() == old(Snapshot()).(
        name := name,
        description := description,
        themeName := if Present(themeName) then themeName.value else old(this.themeName))
    {
      this.name := name;
      this.description := description;
      if Present(themeName) {
        this.themeName := themeName.value;
      }
    }

    /** The Lombok setter for the maintenance flag. */
    method SetMaintenance(maintenance: bool)
      modifies this
      ensures Snapshot() == old(Snapshot()).(maintenance := maintenance)
    {
      this.maintenance := maintenance;
    }
  }
}
