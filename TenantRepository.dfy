/**
 * The tenants table: rows in insertion (id) order, with the unique indexes on
 * the domain pattern and on the site code enforced on save.
 */
module TenantStore {
  import opened Wrappers
  import opened TenantDomain

  datatype StoreError = UniqueConstraintViolation | NoSuchRow

  /** No two rows share an id, a domain pattern or a site code. */
  ghost predicate Unique(rows: seq<TenantRecord>) {
    forall i, j :: 0 <= i < j < |rows| ==>
      rows[i].id != rows[j].id
      && rows[i].domainPattern != rows[j].domainPattern
      && rows[i].siteCode != rows[j].siteCode
  }

  /** Position of the row with the given id. */
  function IndexOfId(rows: seq<TenantRecord>, id: int): (r: Option<nat>)
    ensures r.Some? ==> r.value < |rows| && rows[r.value].id == Some(id)
    ensures r.None? ==> forall i :: 0 <= i < |rows| ==> rows[i].id != Some(id)
    ensures r.Some? ==> forall i :: 0 <= i < r.value ==> rows[i].id != Some(id)
  {
    if rows == [] then None
    else if rows[0].id == Some(id) then Some(0)
    else match IndexOfId(rows[1..], id) {
      case None => None
      case Some(k) => Some(k + 1)
    }
  }

  /** Whether some row other than the one at `skip` has this pattern or site code. */
  predicate Clashes(rows: seq<TenantRecord>, t: TenantRecord, skip: Option<nat>) {
    exists i :: 0 <= i < |rows| && Some(i) != skip
      && (rows[i].domainPattern == t.domainPattern || rows[i].siteCode == t.siteCode)
  }

  /** The rows without the one at index k. */
  function RemoveAt(rows: seq<TenantRecord>, k: nat): (r: seq<TenantRecord>)
    requires k < |rows|
    ensures |r| == |rows| - 1
    ensures forall i :: 0 <= i < k ==> r[i] == rows[i]
    ensures forall i :: k <= i < |r| ==> r[i] == rows[i + 1]
  {
    rows[..k] + rows[k + 1..]
  }

  class TenantRepository {
    var rows: seq<TenantRecord>
    var nextId: int

    ghost predicate Valid()
      reads this
    {
      Unique(rows)
      && nextId > 0
      && forall i :: 0 <= i < |rows| ==> rows[i].id.Some? && 0 < rows[i].id.value < nextId
    }

    constructor ()
      ensures Valid() && rows == []
    {
      rows := [];
      nextId := 1;
    }

    /** existsByDomainPattern. */
    predicate ExistsByDomainPattern(p: string)
      reads this
    {
      exists i :: 0 <= i < |rows| && rows[i].domainPattern == p
    }

    /** existsBySiteCode. */
    predicate ExistsBySiteCode(s: string)
      reads this
    {
      exists i :: 0 <= i < |rows| && rows[i].siteCode == s
    }

    /** findById. */
    function FindById(id: int): (r: Option<TenantRecord>)
      reads this
      ensures r.Some? <==> exists i :: 0 <= i < |rows| && rows[i].id == Some(id)
      ensures r.Some? ==> r.value in rows && r.value.id == Some(id)
    {
      match IndexOfId(rows, id) {
        case None => None
        case Some(k) => Some(rows[k])
      }
    }

    /** findBySiteCode. */
    function FindBySiteCode(s: string): (r: Option<TenantRecord>)
      reads this
      ensures r.Some? <==> ExistsBySiteCode(s)
      ensures r.Some? ==> r.value in rows && r.value.siteCode == s
    {
      FirstWithSiteCode(rows, s)
    }

    /**
     * save: a row without id is inserted with a fresh id, a row with an id
     * replaces the stored row of that id; a clash on either unique index
     * fails and stores nothing.
     */
    method Save(t: TenantRecord) returns (r: Result<TenantRecord, StoreError>)
      requires Valid()
      modifies this
      ensures Valid()
      ensures t.id.None? && !Clashes(old(rows), t, None) ==>
        r == Ok(t.(id := Some(old(nextId)))) && rows == old(rows) + [r.value]
      ensures t.id.Some? && IndexOfId(old(rows), t.id.value).Some? ==>
        var k := IndexOfId(old(rows), t.id.value).value;
        if Clashes(old(rows), t, Some(k)) then r == Err(UniqueConstraintViolation) && rows == old(rows)
        else r == Ok(t) && rows == old(rows)[k := t]
      ensures t.id.Some? && IndexOfId(old(rows), t.id.value).None? ==> r == Err(NoSuchRow) && rows == old(rows)
      ensures t.id.None? && Clashes(old(rows), t, None) ==> r == Err(UniqueConstraintViolation) && rows == old(rows)
      ensures nextId == if t.id.None? && r.Ok? then old(nextId) + 1 else old(nextId)
    {
      if t.id.None? {
        if Clashes(rows, t, None) {
          return Err(UniqueConstraintViolation);
        }
        var saved := t.(id := Some(nextId));
        rows := rows + [saved];
        nextId := nextId + 1;
        return Ok(saved);
      }
      var k := IndexOfId(rows, t.id.value);
      if k.None? {
        return Err(NoSuchRow);
      }
      if Clashes(rows, t, Some(k.value)) {
        return Err(UniqueConstraintViolation);
      }
      rows := rows[k.value := t];
      r := Ok(t);
    }

    /** delete: removes the row with that id, if any. */
    method Delete(id: int)
      requires Valid()
      modifies this
      ensures Valid()
      ensures IndexOfId(old(rows), id).None? ==> rows == old(rows)
      ensures IndexOfId(old(rows), id).Some? ==> rows == RemoveAt(old(rows), IndexOfId(old(rows), id).value)
      ensures nextId == old(nextId)
    {
      var k := IndexOfId(rows, id);
      if k.Some? {
        rows := RemoveAt(rows, k.value);
      }
    }
  }

  /** The first row with the given site code. */
  function FirstWithSiteCode(rows: seq<TenantRecord>, s: string): (r: Option<TenantRecord>)
    ensures r.Some? <==> exists i :: 0 <= i < |rows| && rows[i].siteCode == s
    ensures r.Some? ==> r.value in rows && r.value.siteCode == s
  {
    if rows == [] then None
    else if rows[0].siteCode == s then Some(rows[0])
    else
      var r := FirstWithSiteCode(rows[1..], s);
      assert forall i :: 1 <= i < |rows| ==> rows[i] == rows[1..][i - 1];
      r
  }
}
