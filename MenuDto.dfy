/**
 * The menu administration messages: the save request, and the response tree
 * built from a menu entity and its loaded children.
 */
module MenuTransfer {
  import opened Wrappers
  import opened MenuDomain

  /** SaveRequest: the fields of a menu as an administrator submits them. */
  datatype SaveRequest = SaveRequest(
    siteCode: string,
    parentId: Option<int>,
    name: string,
    urlPattern: string,
    menuType: MenuType,
    handler: Option<string>,
    target: Option<MenuTarget>,
    icon: Option<string>,
    displayOrder: int,
    visible: bool,
    accessible: bool,
    readRoles: Option<string>,
    writeRoles: Option<string>,
    config: Option<MenuConfig>)

  /** A menu entity with its children collection, as loaded. */
  datatype MenuNode = MenuNode(menu: MenuRecord, children: seq<MenuNode>)

  /** Response: the menu's fields, its role sets as lists, a config and the mapped children. */
  datatype Response = Response(
    id: Option<int>,
    parentId: Option<int>,
    name: string,
    urlPattern: string,
    menuType: MenuType,
    handler: Option<string>,
    target: Option<MenuTarget>,
    icon: Option<string>,
    displayOrder: int,
    visible: bool,
    accessible: bool,
    readRoles: seq<string>,
    writeRoles: seq<string>,
    config: MenuConfig,
    children: seq<Response>)

  /**
   * Response.from: the plain fields copied, each role set as a list holding
   * each of its roles once, a missing config replaced by the default one, and
   * the children mapped one by one.
   */
  function From(n: MenuNode): (r: Response)
    ensures r.id == n.menu.id && r.parentId == n.menu.parentId && r.name == n.menu.name
    ensures r.urlPattern == n.menu.urlPattern && r.menuType == n.menu.menuType
    ensures r.handler == n.menu.handler && r.target == n.menu.target && r.icon == n.menu.icon
    ensures r.displayOrder == n.menu.displayOrder && r.visible == n.menu.visible
    ensures r.accessible == n.menu.accessible
    ensures forall x :: x in r.readRoles <==> x in ReadRoleSet(n.menu)
    ensures forall x :: x in r.writeRoles <==> x in WriteRoleSet(n.menu)
    ensures forall i, j :: 0 <= i < j < |r.readRoles| ==> r.readRoles[i] != r.readRoles[j]
    ensures forall i, j :: 0 <= i < j < |r.writeRoles| ==> r.writeRoles[i] != r.writeRoles[j]
    ensures n.menu.config.Some? ==> r.config == n.menu.config.value
    ensures n.menu.config.None? ==> r.config == DefaultMenuConfig
    ensures |r.children| == |n.children|
    decreases n
  {
    Response(n.menu.id, n.menu.parentId, n.menu.name, n.menu.urlPattern, n.menu.menuType,
             n.menu.handler, n.menu.target, n.menu.icon, n.menu.displayOrder, n.menu.visible,
             n.menu.accessible, RoleList(n.menu.readRoles), RoleList(n.menu.writeRoles),
             ConfigOrDefault(n.menu.config),
             seq(|n.children|, i requires 0 <= i < |n.children| => From(n.children[i])))
  }

  /** The ids of a forest of entities, in pre-order. */
  function NodeIds(ns: seq<MenuNode>): seq<Option<int>>
    decreases ns
  {
    if ns == [] then [] else [ns[0].menu.id] + NodeIds(ns[0].children) + NodeIds(ns[1..])
  }

  /** The ids of a forest of responses, in pre-order. */
  function ResponseIds(rs: seq<Response>): seq<Option<int>>
    decreases rs
  {
    if rs == [] then [] else [rs[0].id] + ResponseIds(rs[0].children) + ResponseIds(rs[1..])
  }

  /** Each entity of a forest mapped by From. */
  function FromAll(ns: seq<MenuNode>): (rs: seq<Response>)
    ensures |rs| == |ns| && forall i :: 0 <= i < |ns| ==> rs[i] == From(ns[i])
  {
    seq(|ns|, i requires 0 <= i < |ns| => From(ns[i]))
  }

  /**
   * The mapping keeps the whole tree: the response forest lists the same
   * menus as the entity forest, at every depth, in the same order.
   */
  lemma {:induction false} FromKeepsTree(ns: seq<MenuNode>)
    ensures ResponseIds(FromAll(ns)) == NodeIds(ns)
    decreases ns
  {
    if ns != [] {
      var rs := FromAll(ns);
      FromKeepsTree(ns[0].children);
      FromKeepsTree(ns[1..]);
      assert rs[0].children == FromAll(ns[0].children);
      assert rs[1..] == FromAll(ns[1..]);
    }
  }

  /** Mapping commutes with concatenation. */
  lemma FromAllAppend(a: seq<MenuNode>, b: seq<MenuNode>)
    ensures FromAll(a + b) == FromAll(a) + FromAll(b)
  {
  }

  /** Forests holding the same menus, in any order, map to responses holding the same responses. */
  lemma {:induction false} FromAllPermutes(ns: seq<MenuNode>, ms: seq<MenuNode>)
    requires multiset(ns) == multiset(ms)
    ensures multiset(FromAll(ns)) == multiset(FromAll(ms))
    decreases |ns|
  {
    if ns != [] {
      var x := ns[0];
      assert x in multiset(ms);
      var k :| 0 <= k < |ms| && ms[k] == x;
      var rest := ms[..k] + ms[k + 1..];
      assert ms == ms[..k] + [x] + ms[k + 1..];
      assert ns == [x] + ns[1..];
      assert multiset(ms) == multiset(ms[..k]) + multiset{x} + multiset(ms[k + 1..]);
      assert multiset(ns) == multiset{x} + multiset(ns[1..]);
      assert multiset(rest) == multiset(ms[..k]) + multiset(ms[k + 1..]);
      assert multiset(ns[1..]) == multiset(ns) - multiset{x};
      assert multiset(rest) == multiset(ms) - multiset{x};
      FromAllPermutes(ns[1..], rest);
      FromAllAppend(ms[..k] + [x], ms[k + 1..]);
      FromAllAppend(ms[..k], [x]);
      FromAllAppend(ms[..k], ms[k + 1..]);
      FromAllAppend([x], ns[1..]);
    }
  }

  /** The number of menus in a forest. */
  function Count(ns: seq<MenuNode>): nat
    decreases ns
  {
    if ns == [] then 0 else 1 + Count(ns[0].children) + Count(ns[1..])
  }

  /** A forest has as many ids as menus, so the response tree has as many nodes as the entity tree. */
  lemma {:induction false} CountIsIds(ns: seq<MenuNode>)
    ensures |NodeIds(ns)| == Count(ns)
    ensures |ResponseIds(FromAll(ns))| == Count(ns)
    decreases ns
  {
    if ns != [] {
      CountIsIds(ns[0].children);
      CountIsIds(ns[1..]);
    }
    FromKeepsTree(ns);
  }
}
