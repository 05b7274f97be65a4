/**
 * Menu administration: create, update, delete (with the site check and the
 * cascade to children) and the reorder entry point, each evicting the site's
 * "menu_list" cache entry when it completes.
 */
module MenuAdministration {
  import opened Wrappers
  import TenantDomain
  import opened MenuDomain
  import opened MenuStore
  import opened MenuTransfer

  /** The exceptions the service raises. */
  datatype MenuError =
    | UnknownMenu(message: string, id: int)     // IllegalArgumentException; the message ends with the id
    | ForeignMenu(message: string)              // IllegalStateException

  const UnknownMenuMessage := "존재하지 않는 메뉴입니다. ID: "
  const ForeignMenuMessage := "해당 사이트의 메뉴가 아닙니다."

  /** The entity the builder makes from a save request. */
  function BuiltFrom(req: SaveRequest): MenuRecord {
    Built(req.siteCode, req.parentId, req.name, req.urlPattern, req.handler, req.menuType, req.target,
          req.icon, req.displayOrder, req.visible, req.accessible, req.readRoles, req.writeRoles,
          req.config)
  }

  /** A stored menu after updateInfo, updateAcl and updateConfig with the request's values. */
  function Edited(m: MenuRecord, req: SaveRequest): MenuRecord {
    m.(name := req.name, urlPattern := req.urlPattern, handler := req.handler, menuType := req.menuType,
       target := req.target, icon := req.icon, displayOrder := req.displayOrder, visible := req.visible,
       accessible := req.accessible, readRoles := req.readRoles, writeRoles := req.writeRoles,
       config := req.config)
  }

  /**
   * An update keeps the menu's id, site and parent whatever site the request
   * names, and takes every other field from the request as given.
   */
  lemma EditKeepsPlacement(m: MenuRecord, req: SaveRequest)
    ensures Edited(m, req).id == m.id
    ensures Edited(m, req).siteCode == m.siteCode && Edited(m, req).parentId == m.parentId
    ensures Edited(m, req) == BuiltFrom(req).(id := m.id, siteCode := m.siteCode, parentId := m.parentId,
                                             target := req.target, readRoles := req.readRoles,
                                             writeRoles := req.writeRoles, config := req.config)
  {
  }

  /**
   * Create and update disagree on a request without read roles: a created
   * menu is public to read, an updated one lists no role at all.
   */
  lemma BlankReadRolesOnCreateAndUpdate(m: MenuRecord, req: SaveRequest)
    requires !TenantDomain.Present(req.readRoles)
    ensures ReadRoleSet(BuiltFrom(req)) == {AnonymousRole}
    ensures ReadRoleSet(Edited(m, req)) == {}
  {
    BuiltDefaults(req.siteCode, req.parentId, req.name, req.urlPattern, req.handler, req.menuType,
                  req.target, req.icon, req.displayOrder, req.visible, req.accessible, req.readRoles,
                  req.writeRoles, req.config);
  }

  /** The root entities of a site: no parent, that site's code, in the given order. */
  function SiteRoots(forest: seq<MenuNode>, siteCode: string): (r: seq<MenuNode>)
    ensures forall n :: n in r <==> n in forest && n.menu.siteCode == siteCode && n.menu.parentId.None?
    ensures multiset(r) <= multiset(forest)
  {
    if forest == [] then []
    else
      assert forest == [forest[0]] + forest[1..];
      var n := forest[0];
      (if n.menu.siteCode == siteCode && n.menu.parentId.None? then [n] else []) + SiteRoots(forest[1..], siteCode)
  }

  /** Display order ascending. */
  predicate ByDisplayOrder(ns: seq<MenuNode>) {
    forall i, j :: 0 <= i < j < |ns| ==> ns[i].menu.displayOrder <= ns[j].menu.displayOrder
  }

  /** Puts `x` before the first node of no smaller display order. */
  function InsertByOrder(x: MenuNode, ns: seq<MenuNode>): (r: seq<MenuNode>)
    ensures multiset(r) == multiset(ns) + multiset{x}
  {
    if ns == [] || x.menu.displayOrder <= ns[0].menu.displayOrder then [x] + ns
    else
      assert ns == [ns[0]] + ns[1..];
      [ns[0]] + InsertByOrder(x, ns[1..])
  }

  /** A node no later than any node of a sorted list can go in front. */
  lemma ByDisplayOrderCons(x: MenuNode, ns: seq<MenuNode>)
    requires ByDisplayOrder(ns)
    requires forall n :: n in ns ==> x.menu.displayOrder <= n.menu.displayOrder
    ensures ByDisplayOrder([x] + ns)
  {
    var r := [x] + ns;
    forall i, j | 0 <= i < j < |r| ensures r[i].menu.displayOrder <= r[j].menu.displayOrder {
      assert r[j] == ns[j - 1] && r[j] in ns;
      if i > 0 {
        assert r[i] == ns[i - 1];
      }
    }
  }

  /** An inserted list holds the new node and the old ones, nothing else. */
  lemma InsertByOrderMembers(x: MenuNode, ns: seq<MenuNode>)
    ensures forall n :: n in InsertByOrder(x, ns) ==> n == x || n in ns
  {
    forall n | n in InsertByOrder(x, ns) ensures n == x || n in ns {
      assert n in multiset(InsertByOrder(x, ns));
    }
  }

  lemma {:induction false} InsertByOrderSorted(x: MenuNode, ns: seq<MenuNode>)
    requires ByDisplayOrder(ns)
    ensures ByDisplayOrder(InsertByOrder(x, ns))
  {
    if ns == [] || x.menu.displayOrder <= ns[0].menu.displayOrder {
      assert InsertByOrder(x, ns) == [x] + ns;
      forall n | n in ns ensures x.menu.displayOrder <= n.menu.displayOrder {
        var k :| 0 <= k < |ns| && ns[k] == n;
        assert ns[0].menu.displayOrder <= ns[k].menu.displayOrder;
      }
      ByDisplayOrderCons(x, ns);
    } else {
      var tail := ns[1..];
      assert ByDisplayOrder(tail) by {
        assert forall k :: 0 <= k < |tail| ==> tail[k] == ns[k + 1];
      }
      InsertByOrderSorted(x, tail);
      var rest := InsertByOrder(x, tail);
      assert InsertByOrder(x, ns) == [ns[0]] + rest;
      InsertByOrderMembers(x, tail);
      forall n | n in rest ensures ns[0].menu.displayOrder <= n.menu.displayOrder {
        if n != x {
          var k :| 0 <= k < |tail| && tail[k] == n;
          assert ns[k + 1] == n;
        }
      }
      ByDisplayOrderCons(ns[0], rest);
    }
  }

  /** The nodes in display order, equal orders keeping their relative order. */
  function SortByDisplayOrder(ns: seq<MenuNode>): (r: seq<MenuNode>)
    ensures multiset(r) == multiset(ns)
  {
    if ns == [] then []
    else
      assert ns == [ns[0]] + ns[1..];
      InsertByOrder(ns[0], SortByDisplayOrder(ns[1..]))
  }

  lemma {:induction false} SortByDisplayOrderSorted(ns: seq<MenuNode>)
    ensures ByDisplayOrder(SortByDisplayOrder(ns))
  {
    if ns != [] {
      SortByDisplayOrderSorted(ns[1..]);
      InsertByOrderSorted(ns[0], SortByDisplayOrder(ns[1..]));
    }
  }

  /** The sorted roots are the site's roots, in display order. */
  lemma SortedRoots(forest: seq<MenuNode>, siteCode: string)
    ensures |SortByDisplayOrder(SiteRoots(forest, siteCode))| == |SiteRoots(forest, siteCode)|
    ensures ByDisplayOrder(SortByDisplayOrder(SiteRoots(forest, siteCode)))
    ensures forall n :: n in SortByDisplayOrder(SiteRoots(forest, siteCode)) ==>
      n in forest && n.menu.siteCode == siteCode && n.menu.parentId.None?
  {
    var roots := SortByDisplayOrder(SiteRoots(forest, siteCode));
    SortByDisplayOrderSorted(SiteRoots(forest, siteCode));
    assert |roots| == |multiset(roots)|;
    assert forall n :: n in roots ==> n in multiset(SiteRoots(forest, siteCode));
  }

  /** Mapping keeps membership: an element mapped from a subset lies in the mapped whole. */
  lemma MappedRoots(ns: seq<MenuNode>, all: seq<MenuNode>)
    requires forall n :: n in ns ==> n in all
    ensures forall i :: 0 <= i < |ns| ==> FromAll(ns)[i] in FromAll(all)
  {
    forall i | 0 <= i < |ns| ensures FromAll(ns)[i] in FromAll(all) {
      assert ns[i] in ns;
      var j :| 0 <= j < |all| && all[j] == ns[i];
      assert FromAll(all)[j] == From(ns[i]);
    }
  }

  /**
   * getMenuTree over the loaded entities: the site's root menus, display
   * order ascending, each mapped with its loaded children.
   */
  function GetMenuTree(forest: seq<MenuNode>, siteCode: string): (r: seq<Response>)
    ensures |r| == |SiteRoots(forest, siteCode)|
    ensures forall i :: 0 <= i < |r| ==> r[i] in FromAll(SiteRoots(forest, siteCode))
    ensures forall i :: 0 <= i < |r| ==> r[i].parentId.None?
    ensures forall i, j :: 0 <= i < j < |r| ==> r[i].displayOrder <= r[j].displayOrder
    ensures multiset(r) == multiset(FromAll(SiteRoots(forest, siteCode)))
  {
    var roots := SortByDisplayOrder(SiteRoots(forest, siteCode));
    FromAllPermutes(roots, SiteRoots(forest, siteCode));
    SortedRoots(forest, siteCode);
    MappedRoots(roots, SiteRoots(forest, siteCode));
    var r := FromAll(roots);
    assert forall i :: 0 <= i < |r| ==>
      r[i].parentId == roots[i].menu.parentId && r[i].displayOrder == roots[i].menu.displayOrder;
    assert forall i :: 0 <= i < |r| ==> r[i].parentId.None? by {
      forall i | 0 <= i < |r| ensures r[i].parentId.None? {
        assert roots[i] in roots;
      }
    }
    r
  }

  class MenuAdminService {
    const repository: MenuRepository
    /** The "menu_list" cache: a site's menu list by site code. */
    var menuListCache: map<string, seq<MenuRecord>>

    ghost predicate Valid()
      reads this, repository
    {
      repository.Valid()
    }

    constructor (repository: MenuRepository)
      requires repository.Valid()
      ensures Valid() && this.repository == repository && menuListCache == map[]
    {
      this.repository := repository;
      menuListCache := map[];
    }

    /** createMenu: the built entity is stored under a fresh id, which is returned. */
    method CreateMenu(req: SaveRequest) returns (id: int)
      requires Valid()
      modifies this, repository
      ensures Valid()
      ensures id == old(repository.nextId)
      ensures repository.rows == old(repository.rows) + [BuiltFrom(req).(id := Some(id))]
      ensures menuListCache == old(menuListCache) - {req.siteCode}
    {
      var menu := new Menu.Build(req.siteCode, req.parentId, req.name, req.urlPattern, req.handler,
                                 req.menuType, req.target, req.icon, req.displayOrder, req.visible,
                                 req.accessible, req.readRoles, req.writeRoles, req.config);
      var saved := repository.Insert(menu.Snapshot());
      id := saved.id.value;
      menuListCache := menuListCache - {req.siteCode};
    }

    /**
     * updateMenu: an unknown id fails and changes nothing; otherwise the
     * entity's info, ACL strings and config take the request's values, with
     * no check of the request's site against the menu's, and the request's
     * site is evicted.
     */
    method UpdateMenu(id: int, req: SaveRequest) returns (r: Result<(), MenuError>)
      requires Valid()
      modifies this, repository
      ensures Valid()
      ensures IndexOfId(old(repository.rows), id).None? ==>
        r == Err(UnknownMenu(UnknownMenuMessage, id))
        && repository.rows == old(repository.rows) && menuListCache == old(menuListCache)
      ensures IndexOfId(old(repository.rows), id).Some? ==>
        var k := IndexOfId(old(repository.rows), id).value;
        r == Ok(())
        && repository.rows == old(repository.rows)[k := Edited(old(repository.rows)[k], req)]
        && menuListCache == old(menuListCache) - {req.siteCode}
      ensures repository.nextId == old(repository.nextId)
    {
      var k := IndexOfId(repository.rows, id);
      if k.None? {
        return Err(UnknownMenu(UnknownMenuMessage, id));
      }
      var cache := menuListCache;
      var menu := new Menu.Load(repository.rows[k.value]);
      menu.UpdateInfo(req.name, req.urlPattern, req.handler, req.menuType, req.target, req.icon,
                      req.displayOrder, req.visible, req.accessible);
      menu.UpdateAcl(req.readRoles, req.writeRoles);
      menu.UpdateConfig(req.config);
      repository.Store(k.value, menu.Snapshot());
      menuListCache := cache - {req.siteCode};
      r := Ok(());
    }

    /**
     * deleteMenu: an unknown id fails; a menu of another site fails and is
     * kept; otherwise the menu and all its descendants are removed.
     */
    method DeleteMenu(siteCode: string, id: int) returns (r: Result<(), MenuError>)
      requires Valid()
      modifies this, repository
      ensures Valid()
      ensures IndexOfId(old(repository.rows), id).None? ==>
        r == Err(UnknownMenu(UnknownMenuMessage, id))
        && repository.rows == old(repository.rows) && menuListCache == old(menuListCache)
      ensures IndexOfId(old(repository.rows), id).Some? ==>
        var m := old(repository.rows)[IndexOfId(old(repository.rows), id).value];
        if m.siteCode != siteCode then
          r == Err(ForeignMenu(ForeignMenuMessage))
          && repository.rows == old(repository.rows) && menuListCache == old(menuListCache)
        else
          r == Ok(())
          && (exists s :: Subtree(old(repository.rows), id, s) && repository.rows == Without(old(repository.rows), s))
          && menuListCache == old(menuListCache) - {siteCode}
      ensures repository.nextId == old(repository.nextId)
    {
      var k := IndexOfId(repository.rows, id);
      if k.None? {
        return Err(UnknownMenu(UnknownMenuMessage, id));
      }
      if repository.rows[k.value].siteCode != siteCode {
        return Err(ForeignMenu(ForeignMenuMessage));
      }
      repository.Delete(id);
      menuListCache := menuListCache - {siteCode};
      r := Ok(());
    }

    /**
     * reorderMenus: every listed id is looked up and nothing is done with it,
     * so no menu changes; the site's entry is still evicted.
     */
    method ReorderMenus(siteCode: string, orderedIds: seq<int>)
      requires Valid()
      modifies this
      ensures Valid()
      ensures unchanged(repository)
      ensures menuListCache == old(menuListCache) - {siteCode}
    {
      // The source looks each id up and hands a found menu to an empty
      // lambda (the display-order update is only a comment there), so the
      // loop reads the store and writes nothing: its bound is the only invariant.
      var i := 0;
      while i < |orderedIds|
        invariant 0 <= i <= |orderedIds|
      {
        var found := repository.FindById(orderedIds[i]);
        if found.Some? {
          // the entity is left as it is
        }
        i := i + 1;
      }
      menuListCache := menuListCache - {siteCode};
    }
  }
}
