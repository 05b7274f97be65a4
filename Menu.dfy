/**
 * The menu entity: a site's navigation entry with an Ant-style URL pattern,
 * status flags and two role lists stored as comma-separated text.
 */
module MenuDomain {
  import opened Wrappers
  import JavaStrings
  import TenantDomain

  datatype MenuType = PAGE | BOARD | LINK | GROUP

  /** The link target: `_SELF` or `_BLANK`. */
  datatype MenuTarget = Self | Blank

  /** The per-menu settings stored as JSON. */
  datatype MenuConfig = MenuConfig(
    commentEnabled: bool,
    fileUploadEnabled: bool,
    secretEnabled: bool,
    pageSize: int,
    showSidebar: bool,
    headerImage: string)

  /** `new MenuConfig()`: comments and uploads on, no secret posts, 20 rows a page, sidebar shown, no header image. */
  const DefaultMenuConfig := MenuConfig(true, true, false, 20, true, "")

  /** The role that lets everybody read, and the default write role. */
  const AnonymousRole := "ANONYMOUS"
  const AdminWriteRole := "ROLE_ADMIN"
  const ReadAction := "READ"

  /** The stored columns of one menu; `id` is unset until the row is saved. */
  datatype MenuRecord = MenuRecord(
    id: Option<int>,
    siteCode: string,
    parentId: Option<int>,
    name: string,
    icon: Option<string>,
    displayOrder: int,
    urlPattern: string,
    menuType: MenuType,
    target: Option<MenuTarget>,
    handler: Option<string>,
    visible: bool,
    accessible: bool,
    readRoles: Option<string>,
    writeRoles: Option<string>,
    config: Option<MenuConfig>)

  // ---------------------------------------------------------------- builder defaults

  /** A missing target becomes `_SELF`. */
  function TargetOrSelf(target: Option<MenuTarget>): (r: MenuTarget)
    ensures target.Some? ==> r == target.value
    ensures target.None? ==> r == Self
  {
    if target.Some? then target.value else Self
  }

  /** A role list without text becomes the given fallback. */
  function RolesOr(raw: Option<string>, fallback: string): (r: string)
    ensures TenantDomain.Present(raw) ==> r == raw.value
    ensures !TenantDomain.Present(raw) ==> r == fallback
  {
    if TenantDomain.Present(raw) then raw.value else fallback
  }

  /** A missing config becomes the default one. */
  function ConfigOrDefault(config: Option<MenuConfig>): (r: MenuConfig)
    ensures config.Some? ==> r == config.value
    ensures config.None? ==> r == DefaultMenuConfig
  {
    if config.Some? then config.value else DefaultMenuConfig
  }

  // ---------------------------------------------------------------- role parsing

  /** Each piece trimmed, in order. */
  function TrimAll(pieces: seq<string>): (r: seq<string>)
    ensures |r| == |pieces|
    ensures forall k :: 0 <= k < |r| ==> r[k] == JavaStrings.Trim(pieces[k])
  {
    if pieces == [] then [] else [JavaStrings.Trim(pieces[0])] + TrimAll(pieces[1..])
  }

  /** The elements in order of first occurrence, each once. */
  function Distinct(xs: seq<string>): (r: seq<string>)
    ensures forall x :: x in r <==> x in xs
    ensures forall i, j :: 0 <= i < j < |r| ==> r[i] != r[j]
  {
    if xs == [] then []
    else
      var d := Distinct(xs[..|xs| - 1]);
      var last := xs[|xs| - 1];
      assert xs == xs[..|xs| - 1] + [last];
      if last in d then d else d + [last]
  }

  /**
   * parseRoles as a list without repeats: no text gives nothing; otherwise the
   * string is split on ",", as String.split does (trailing empty pieces go),
   * and each piece is trimmed. The order is that of first occurrence, where
   * the source's hash set leaves the order open.
   */
  function RoleList(csv: Option<string>): (r: seq<string>)
    ensures forall i, j :: 0 <= i < j < |r| ==> r[i] != r[j]
  {
    if !TenantDomain.Present(csv) then []
    else Distinct(TrimAll(JavaStrings.Split(csv.value, ',')))
  }

  /** parseRoles: the set of trimmed pieces of a role list with text, and nothing otherwise. */
  function RoleSet(csv: Option<string>): (r: set<string>)
    ensures !TenantDomain.Present(csv) ==> r == {}
    ensures forall x :: x in r <==>
      TenantDomain.Present(csv)
      && exists k :: 0 <= k < |JavaStrings.Split(csv.value, ',')|
                     && JavaStrings.Trim(JavaStrings.Split(csv.value, ',')[k]) == x
  {
    var r := set x | x in RoleList(csv);
    assert forall x :: x in r <==> x in RoleList(csv);
    r
  }

  /** A single role name with no comma and nothing to trim is read as exactly that role. */
  lemma SingleRoleList(role: string)
    requires role != [] && ',' !in role
    requires !JavaStrings.Trimmable(role[0]) && !JavaStrings.Trimmable(role[|role| - 1])
    requires !JavaStrings.IsWhitespace(role[0])
    ensures RoleSet(Some(role)) == {role}
  {
    assert JavaStrings.Split(role, ',') == [role];
    JavaStrings.TrimKeepsTrimmed(role);
    assert JavaStrings.Trim(JavaStrings.Split(role, ',')[0]) == role;
    forall x | x in RoleSet(Some(role)) ensures x == role {
    }
  }

  /** The two default role names have no comma and nothing to trim. */
  lemma DefaultRolesArePlain()
    ensures AnonymousRole != [] && ',' !in AnonymousRole
    ensures !JavaStrings.Trimmable(AnonymousRole[0]) && !JavaStrings.Trimmable(AnonymousRole[|AnonymousRole| - 1])
    ensures AdminWriteRole != [] && ',' !in AdminWriteRole
    ensures !JavaStrings.Trimmable(AdminWriteRole[0]) && !JavaStrings.Trimmable(AdminWriteRole[|AdminWriteRole| - 1])
  {
  }

  /** The two builder defaults name one role each. */
  lemma DefaultRoleSets()
    ensures RoleSet(Some(AnonymousRole)) == {AnonymousRole}
    ensures RoleSet(Some(AdminWriteRole)) == {AdminWriteRole}
  {
    DefaultRolesArePlain();
    SingleRoleList(AnonymousRole);
    SingleRoleList(AdminWriteRole);
  }

  /** getReadRoleSet. */
  function ReadRoleSet(m: MenuRecord): set<string> {
    RoleSet(m.readRoles)
  }

  /** getWriteRoleSet. */
  function WriteRoleSet(m: MenuRecord): set<string> {
    RoleSet(m.writeRoles)
  }

  /** isAuthorized: only reading, and only when the read roles admit everybody; the user plays no part. */
  predicate IsAuthorized(m: MenuRecord, action: string) {
    action == ReadAction && AnonymousRole in ReadRoleSet(m)
  }

  /** The builder's record for the given arguments. */
  function Built(siteCode: string, parentId: Option<int>, name: string, urlPattern: string,
                 handler: Option<string>, menuType: MenuType, target: Option<MenuTarget>,
                 icon: Option<string>, displayOrder: int, visible: bool, accessible: bool,
                 readRoles: Option<string>, writeRoles: Option<string>,
                 config: Option<MenuConfig>): MenuRecord
  {
    MenuRecord(None, siteCode, parentId, name, icon, displayOrder, urlPattern, menuType,
               Some(TargetOrSelf(target)), handler, visible, accessible,
               Some(RolesOr(readRoles, AnonymousRole)), Some(RolesOr(writeRoles, AdminWriteRole)),
               Some(ConfigOrDefault(config)))
  }

  /**
   * A role list taken with a fallback always has text and names at least one
   * role; without text of its own it is exactly the fallback role.
   */
  lemma RolesOrDefault(raw: Option<string>, fallback: string)
    requires fallback != [] && ',' !in fallback
    requires !JavaStrings.Trimmable(fallback[0]) && !JavaStrings.Trimmable(fallback[|fallback| - 1])
    requires !JavaStrings.IsWhitespace(fallback[0])
    ensures TenantDomain.Present(Some(RolesOr(raw, fallback)))
    ensures RoleSet(Some(RolesOr(raw, fallback))) == {} ==> raw.Some? && forall i :: 0 <= i < |raw.value| ==> raw.value[i] == ','
    ensures !TenantDomain.Present(raw) ==> RoleSet(Some(RolesOr(raw, fallback))) == {fallback}
  {
    if TenantDomain.Present(raw) {
      PresentHasRole(raw);
    } else {
      SingleRoleList(fallback);
    }
  }

  /**
   * A built menu always has a target and a config; left without read roles
   * it is public to read, left without write roles only administrators may
   * write.
   */
  lemma BuiltDefaults(siteCode: string, parentId: Option<int>, name: string, urlPattern: string,
                      handler: Option<string>, menuType: MenuType, target: Option<MenuTarget>,
                      icon: Option<string>, displayOrder: int, visible: bool, accessible: bool,
                      readRoles: Option<string>, writeRoles: Option<string>,
                      config: Option<MenuConfig>)
    ensures var m := Built(siteCode, parentId, name, urlPattern, handler, menuType, target, icon,
                           displayOrder, visible, accessible, readRoles, writeRoles, config);
      m.target.Some? && m.config.Some?
      && TenantDomain.Present(m.readRoles) && TenantDomain.Present(m.writeRoles)
      && (!TenantDomain.Present(readRoles) ==> ReadRoleSet(m) == {AnonymousRole} && IsAuthorized(m, ReadAction))
      && (!TenantDomain.Present(writeRoles) ==> WriteRoleSet(m) == {AdminWriteRole})
  {
    var m := Built(siteCode, parentId, name, urlPattern, handler, menuType, target, icon,
                   displayOrder, visible, accessible, readRoles, writeRoles, config);
    var readList := Some(RolesOr(readRoles, AnonymousRole));
    var writeList := Some(RolesOr(writeRoles, AdminWriteRole));
    assert m.readRoles == readList && m.writeRoles == writeList;
    assert m.target.Some? && m.config.Some?;
    DefaultRolesArePlain();
    RolesOrDefault(readRoles, AnonymousRole);
    RolesOrDefault(writeRoles, AdminWriteRole);
    if !TenantDomain.Present(readRoles) {
      assert RoleSet(readList) == {AnonymousRole};
      assert AnonymousRole in ReadRoleSet(m);
    }
  }

  /** A role list with text yields at least one (possibly empty) name, unless it is all commas. */
  lemma PresentHasRole(csv: Option<string>)
    requires TenantDomain.Present(csv)
    ensures RoleSet(csv) != {} <==> exists i :: 0 <= i < |csv.value| && csv.value[i] != ','
  {
    JavaStrings.SplitEmptyIff(csv.value, ',');
    var pieces := JavaStrings.Split(csv.value, ',');
    if pieces != [] {
      assert JavaStrings.Trim(pieces[0]) in RoleSet(csv);
    }
  }

  /** Only READ is ever authorised, and never for a menu whose read roles lack ANONYMOUS. */
  lemma OnlyAnonymousReading(m: MenuRecord, action: string)
    ensures IsAuthorized(m, action) ==> action == ReadAction
    ensures IsAuthorized(m, action) <==>
      (action == ReadAction
       && TenantDomain.Present(m.readRoles)
       && exists k :: 0 <= k < |JavaStrings.Split(m.readRoles.value, ',')|
                      && JavaStrings.Trim(JavaStrings.Split(m.readRoles.value, ',')[k]) == AnonymousRole)
  {
  }

  // ---------------------------------------------------------------- entity

  /** The entity as an object whose fields the service layer updates in place. */
  class Menu {
    var id: Option<int>
    var siteCode: string
    var parentId: Option<int>
    var name: string
    var icon: Option<string>
    var displayOrder: int
    var urlPattern: string
    var menuType: MenuType
    var target: Option<MenuTarget>
    var handler: Option<string>
    var visible: bool
    var accessible: bool
    var readRoles: Option<string>
    var writeRoles: Option<string>
    var config: Option<MenuConfig>

    /** The builder constructor, with its defaults for target, roles and config. */
    constructor Build(siteCode: string, parentId: Option<int>, name: string, urlPattern: string,
                      handler: Option<string>, menuType: MenuType, target: Option<MenuTarget>,
                      icon: Option<string>, displayOrder: int, visible: bool, accessible: bool,
                      readRoles: Option<string>, writeRoles: Option<string>,
                      config: Option<MenuConfig>)
      ensures Snapshot() == Built(siteCode, parentId, name, urlPattern, handler, menuType, target, icon,
                                  displayOrder, visible, accessible, readRoles, writeRoles, config)
    {
      this.id := None;
      this.siteCode := siteCode;
      this.parentId := parentId;
      this.name := name;
      this.urlPattern := urlPattern;
      this.handler := handler;
      this.menuType := menuType;
      this.target := Some(TargetOrSelf(target));
      this.icon := icon;
      this.displayOrder := displayOrder;
      this.visible := visible;
      this.accessible := accessible;
      this.readRoles := Some(RolesOr(readRoles, AnonymousRole));
      this.writeRoles := Some(RolesOr(writeRoles, AdminWriteRole));
      this.config := Some(ConfigOrDefault(config));
    }

    /** An entity loaded from a stored row. */
    constructor Load(row: MenuRecord)
      ensures Snapshot() == row
    {
      id := row.id;
      siteCode := row.siteCode;
      parentId := row.parentId;
      name := row.name;
      icon := row.icon;
      displayOrder := row.displayOrder;
      urlPattern := row.urlPattern;
      menuType := row.menuType;
      target := row.target;
      handler := row.handler;
      visible := row.visible;
      accessible := row.accessible;
      readRoles := row.readRoles;
      writeRoles := row.writeRoles;
      config := row.config;
    }

    /** The entity's current field values. */
    function Snapshot(): MenuRecord
      reads this
    {
      MenuRecord(id, siteCode, parentId, name, icon, displayOrder, urlPattern, menuType, target,
                 handler, visible, accessible, readRoles, writeRoles, config)
    }

    /** updateInfo: the nine presentation and routing fields, nothing else. */
    method UpdateInfo(name: string, urlPattern: string, handler: Option<string>, menuType: MenuType,
                      target: Option<MenuTarget>, icon: Option<string>, displayOrder: int,
                      visible: bool, accessible: bool)
      modifies this`name, this`urlPattern, this`handler, this`menuType, this`target, this`icon,
               this`displayOrder, this`visible, this`accessible
      ensures this.name == name && this.urlPattern == urlPattern && this.handler == handler
      ensures this.menuType == menuType && this.target == target && this.icon == icon
      ensures this.displayOrder == displayOrder && this.visible == visible && this.accessible == accessible
    {
      this.name := name;
      this.urlPattern := urlPattern;
      this.handler := handler;
      this.menuType := menuType;
      this.target := target;
      this.icon := icon;
      this.displayOrder := displayOrder;
      this.visible := visible;
      this.accessible := accessible;
    }

    /** updateAcl: the raw strings, with no defaulting. */
    method UpdateAcl(readRoles: Option<string>, writeRoles: Option<string>)
      modifies this
      ensures Snapshot() == old(Snapshot()).(readRoles := readRoles, writeRoles := writeRoles)
      ensures !TenantDomain.Present(readRoles) ==> ReadRoleSet(Snapshot()) == {}
      ensures !TenantDomain.Present(writeRoles) ==> WriteRoleSet(Snapshot()) == {}
    {
      this.readRoles := readRoles;
      this.writeRoles := writeRoles;
    }

    /** updateConfig: the config as given, possibly none. */
    method UpdateConfig(config: Option<MenuConfig>)
      modifies this
      ensures Snapshot() == old(Snapshot()).(config := config)
    {
      this.config := config;
    }
  }
}
