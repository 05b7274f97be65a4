/**
 * The menus table: rows in insertion (id) order. A menu's children are the
 * rows whose parent id is its id, and deleting a menu also deletes its
 * children, theirs and so on (the cascade on the children association).
 */
module MenuStore {
  import opened Wrappers
  import opened MenuDomain

  /** No two rows share an id. */
  ghost predicate UniqueIds(rows: seq<MenuRecord>) {
    forall i, j :: 0 <= i < j < |rows| ==> rows[i].id != rows[j].id
  }

  /** Position of the row with the given id. */
  function IndexOfId(rows: seq<MenuRecord>, id: int): (r: Option<nat>)
    ensures r.Some? ==> r.value < |rows| && rows[r.value].id == Some(id)
    ensures r.None? ==> forall i :: 0 <= i < |rows| ==> rows[i].id != Some(id)
  {
    if rows == [] then None
    else if rows[0].id == Some(id) then Some(0)
    else match IndexOfId(rows[1..], id) {
      case None => None
      case Some(k) => Some(k + 1)
    }
  }

  /** The ids in use. */
  function Ids(rows: seq<MenuRecord>): (r: set<int>)
    ensures forall k :: k in r <==> IndexOfId(rows, k).Some?
  {
    set i | 0 <= i < |rows| && rows[i].id.Some? :: rows[i].id.value
  }

  /** The parent id of the row with id `k`, if that row exists and has one. */
  function ParentOf(rows: seq<MenuRecord>, k: int): (r: Option<int>)
    ensures r.Some? ==> k in Ids(rows)
  {
    match IndexOfId(rows, k) {
      case None => None
      case Some(i) => rows[i].parentId
    }
  }

  /** Following parent links from `k` reaches `root` in at most `n` steps. */
  ghost predicate ReachesRoot(rows: seq<MenuRecord>, k: int, root: int, n: nat)
    decreases n
  {
    k == root || (n > 0 && ParentOf(rows, k).Some? && ReachesRoot(rows, ParentOf(rows, k).value, root, n - 1))
  }

  /** Every row of `s` descends from `root`, and every child of a row of `s` is in `s`. */
  ghost predicate Subtree(rows: seq<MenuRecord>, root: int, s: set<int>) {
    root in s
    && (forall k :: k in s ==> exists n: nat :: ReachesRoot(rows, k, root, n))
    && (forall k :: ParentOf(rows, k).Some? && ParentOf(rows, k).value in s ==> k in s)
  }

  /** A set closed under children that holds the root holds every descendant of the root. */
  lemma {:induction false} ClosedHoldsDescendants(rows: seq<MenuRecord>, root: int, s: set<int>, k: int, n: nat)
    requires root in s
    requires forall j :: ParentOf(rows, j).Some? && ParentOf(rows, j).value in s ==> j in s
    requires ReachesRoot(rows, k, root, n)
    ensures k in s
    decreases n
  {
    if k != root {
      ClosedHoldsDescendants(rows, root, s, ParentOf(rows, k).value, n - 1);
    }
  }

  /** The subtree of a root is exactly the set of its descendants (the root included). */
  lemma SubtreeIsDescendants(rows: seq<MenuRecord>, root: int, s: set<int>, k: int)
    requires Subtree(rows, root, s)
    ensures k in s ==> exists n: nat :: ReachesRoot(rows, k, root, n)
    ensures (exists n: nat :: ReachesRoot(rows, k, root, n)) ==> k in s
  {
    forall n: nat | ReachesRoot(rows, k, root, n) ensures k in s {
      ClosedHoldsDescendants(rows, root, s, k, n);
    }
  }

  /** The rows whose id is not in `gone`, in order. */
  function Without(rows: seq<MenuRecord>, gone: set<int>): (r: seq<MenuRecord>)
    ensures forall m :: m in r <==> m in rows && !(m.id.Some? && m.id.value in gone)
    ensures |r| <= |rows|
  {
    if rows == [] then []
    else
      assert rows == [rows[0]] + rows[1..];
      (if rows[0].id.Some? && rows[0].id.value in gone then [] else [rows[0]]) + Without(rows[1..], gone)
  }

  class MenuRepository {
    var rows: seq<MenuRecord>
    var nextId: int

    ghost predicate Valid()
      reads this
    {
      UniqueIds(rows)
      && nextId > 0
      && forall i :: 0 <= i < |rows| ==> rows[i].id.Some? && 0 < rows[i].id.value < nextId
    }

    constructor ()
      ensures Valid() && rows == [] && nextId == 1
    {
      rows := [];
      nextId := 1;
    }

    /** findById. */
    function FindById(id: int): (r: Option<MenuRecord>)
      reads this
      ensures r.Some? <==> id in Ids(rows)
      ensures r.Some? ==> r.value in rows && r.value.id == Some(id)
    {
      match IndexOfId(rows, id) {
        case None => None
        case Some(k) => Some(rows[k])
      }
    }

    /** save of a new entity: it is stored under a fresh id, which the saved copy carries. */
    method Insert(m: MenuRecord) returns (saved: MenuRecord)
      requires Valid()
      modifies this
      ensures Valid()
      ensures saved == m.(id := Some(old(nextId)))
      ensures rows == old(rows) + [saved] && nextId == old(nextId) + 1
    {
      saved := m.(id := Some(nextId));
      rows := rows + [saved];
      nextId := nextId + 1;
    }

    /** The flush of a managed entity: the stored row of that id takes the entity's fields. */
    method Store(k: nat, m: MenuRecord)
      requires Valid() && k < |rows| && m.id == rows[k].id
      modifies this
      ensures Valid()
      ensures rows == old(rows)[k := m] && nextId == old(nextId)
    {
      rows := rows[k := m];
    }

    /** The ids of the row with id `root` and all its descendants. */
    method SubtreeOf(root: int) returns (s: set<int>)
      requires Valid() && root in Ids(rows)
      ensures Subtree(rows, root, s) && s <= Ids(rows)
    {
      s := {root};
      assert ReachesRoot(rows, root, root, 0);
      while true
        invariant DescendantsSoFar(rows, root, s)
        decreases |Ids(rows) - s|
      {
        var children := Children(rows, s);
        if children == {} {
          NoChildLeft(rows, root, s);
          return;
        }
        var c :| c in children;
        AddChild(rows, root, s, c);
        s := s + {c};
      }
    }

    /** delete with the cascade: the menu and all its descendants go, every other row stays in order. */
    method Delete(id: int)
      requires Valid() && id in Ids(rows)
      modifies this
      ensures Valid()
      ensures exists s :: Subtree(old(rows), id, s) && rows == Without(old(rows), s)
      ensures nextId == old(nextId)
    {
      var s := SubtreeOf(id);
      ghost var before := rows;
      rows := Without(rows, s);
      assert Subtree(before, id, s);
      WithoutKeepsValid(before, s, nextId);
    }
  }

  /** Removing rows keeps ids unique and below the next id. */
  lemma WithoutKeepsValid(rows: seq<MenuRecord>, gone: set<int>, nextId: int)
    requires UniqueIds(rows)
    requires forall i :: 0 <= i < |rows| ==> rows[i].id.Some? && 0 < rows[i].id.value < nextId
    ensures UniqueIds(Without(rows, gone))
    ensures forall i :: 0 <= i < |Without(rows, gone)| ==>
              Without(rows, gone)[i].id.Some? && 0 < Without(rows, gone)[i].id.value < nextId
  {
    WithoutKeepsUnique(rows, gone);
    var r := Without(rows, gone);
    forall i | 0 <= i < |r| ensures r[i].id.Some? && 0 < r[i].id.value < nextId {
      assert r[i] in r;
      var k :| 0 <= k < |rows| && rows[k] == r[i];
    }
  }

  /** Dropping the first row keeps ids unique. */
  lemma UniqueTail(rows: seq<MenuRecord>)
    requires rows != [] && UniqueIds(rows)
    ensures UniqueIds(rows[1..])
    ensures forall m :: m in rows[1..] ==> m.id != rows[0].id
  {
    var tail := rows[1..];
    forall i, j | 0 <= i < j < |tail| ensures tail[i].id != tail[j].id {
      assert tail[i] == rows[i + 1] && tail[j] == rows[j + 1];
    }
    forall m | m in tail ensures m.id != rows[0].id {
      var k :| 0 <= k < |tail| && tail[k] == m;
      assert rows[k + 1] == m;
    }
  }

  /** A row whose id no other row has can go in front. */
  lemma UniqueCons(x: MenuRecord, rest: seq<MenuRecord>)
    requires UniqueIds(rest) && forall m :: m in rest ==> m.id != x.id
    ensures UniqueIds([x] + rest)
  {
    var r := [x] + rest;
    forall i, j | 0 <= i < j < |r| ensures r[i].id != r[j].id {
      assert r[j] == rest[j - 1] && r[j] in rest;
      if i > 0 {
        assert r[i] == rest[i - 1];
      }
    }
  }

  /** Removing rows keeps ids unique. */
  lemma {:induction false} WithoutKeepsUnique(rows: seq<MenuRecord>, gone: set<int>)
    requires UniqueIds(rows)
    ensures UniqueIds(Without(rows, gone))
  {
    if rows != [] {
      UniqueTail(rows);
      WithoutKeepsUnique(rows[1..], gone);
      var rest := Without(rows[1..], gone);
      if !(rows[0].id.Some? && rows[0].id.value in gone) {
        assert Without(rows, gone) == [rows[0]] + rest;
        UniqueCons(rows[0], rest);
      }
    }
  }

  /** The loop invariant of SubtreeOf: ids in use, all descending from the root. */
  ghost predicate DescendantsSoFar(rows: seq<MenuRecord>, root: int, s: set<int>) {
    root in s && s <= Ids(rows)
    && forall k :: k in s ==> exists n: nat :: ReachesRoot(rows, k, root, n)
  }

  /** A child of a row in the set descends from the root too, and adding it leaves fewer ids outside. */
  lemma AddChild(rows: seq<MenuRecord>, root: int, s: set<int>, c: int)
    requires DescendantsSoFar(rows, root, s)
    requires c in Ids(rows) && c !in s && ParentOf(rows, c).Some? && ParentOf(rows, c).value in s
    ensures DescendantsSoFar(rows, root, s + {c})
    ensures |Ids(rows) - (s + {c})| < |Ids(rows) - s|
  {
    var p := ParentOf(rows, c).value;
    var n: nat :| ReachesRoot(rows, p, root, n);
    assert ReachesRoot(rows, c, root, n + 1);
    assert (Ids(rows) - (s + {c})) + {c} == Ids(rows) - s;
  }

  /** With no child left outside, the set is the subtree. */
  lemma NoChildLeft(rows: seq<MenuRecord>, root: int, s: set<int>)
    requires DescendantsSoFar(rows, root, s)
    requires Children(rows, s) == {}
    ensures Subtree(rows, root, s)
  {
  }

  /** The ids outside `s` whose parent is in `s`. */
  function Children(rows: seq<MenuRecord>, s: set<int>): (r: set<int>)
    ensures forall k :: k in r <==> k in Ids(rows) && k !in s && ParentOf(rows, k).Some? && ParentOf(rows, k).value in s
  {
    set k | k in Ids(rows) && k !in s && ParentOf(rows, k).Some? && ParentOf(rows, k).value in s
  }
}
