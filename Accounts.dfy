/**
 * Users, their per-site memberships and roles, and the two tables that hold
 * them. A user's account is global; what the user may do on a site comes
 * from the membership linking the user to that site's tenant.
 */
module Accounts {
  import opened Wrappers

  datatype UserStatus = ACTIVE | DORMANT | LOCKED | WITHDRAWN

  datatype MembershipStatus = PENDING | ACTIVE | BANNED | WITHDRAWN

  datatype Role = USER | MANAGER | ADMIN

  /** Role.name(). */
  function RoleName(r: Role): string {
    match r
    case USER => "USER"
    case MANAGER => "MANAGER"
    case ADMIN => "ADMIN"
  }

  const RolePrefix := "ROLE_"

  /** Role.getKey: the authority string of a role. */
  function RoleKey(r: Role): string {
    RolePrefix + RoleName(r)
  }

  /** Different roles have different authority strings. */
  lemma RoleKeyInjective(a: Role, b: Role)
    ensures RoleKey(a) == RoleKey(b) <==> a == b
  {
    if a != b {
      assert RoleKey(a)[5] != RoleKey(b)[5];
    }
  }

  datatype User = User(id: Option<int>, email: string, nickname: string, password: string, status: UserStatus)

  /** The User builder: a missing status is ACTIVE. */
  function NewUser(email: string, nickname: string, password: string, status: Option<UserStatus>): (u: User)
    ensures u.id == None && u.email == email && u.nickname == nickname && u.password == password
    ensures u.status == (if status.Some? then status.value else UserStatus.ACTIVE)
  {
    User(None, email, nickname, password, if status.Some? then status.value else UserStatus.ACTIVE)
  }

  /** A membership row, referring to its user and tenant by id. */
  datatype Membership = Membership(id: Option<int>, userId: int, tenantId: int, role: Role, status: MembershipStatus)

  /** The Membership builder: a missing role is USER and a missing status is ACTIVE. */
  function NewMembership(userId: int, tenantId: int, role: Option<Role>, status: Option<MembershipStatus>): (m: Membership)
    ensures m.id == None && m.userId == userId && m.tenantId == tenantId
    ensures m.role == (if role.Some? then role.value else USER)
    ensures m.status == (if status.Some? then status.value else MembershipStatus.ACTIVE)
  {
    Membership(None, userId, tenantId, if role.Some? then role.value else USER,
               if status.Some? then status.value else MembershipStatus.ACTIVE)
  }

  /** The users table, with its unique index on the e-mail address. */
  class UserRepository {
    var rows: seq<User>
    var nextId: int

    ghost predicate Valid()
      reads this
    {
      nextId > 0
      && (forall i :: 0 <= i < |rows| ==> rows[i].id.Some? && 0 < rows[i].id.value < nextId)
      && (forall i, j :: 0 <= i < j < |rows| ==> rows[i].id != rows[j].id && rows[i].email != rows[j].email)
    }

    constructor ()
      ensures Valid() && rows == []
    {
      rows := [];
      nextId := 1;
    }

    /** existsByEmail. */
    predicate ExistsByEmail(email: string)
      reads this
    {
      exists i :: 0 <= i < |rows| && rows[i].email == email
    }

    /** save of a new user: inserted with a fresh id unless the e-mail is taken. */
    method Insert(u: User) returns (r: Option<User>)
      requires Valid()
      modifies this
      ensures Valid()
      ensures !old(ExistsByEmail(u.email)) ==> r == Some(u.(id := Some(old(nextId)))) && rows == old(rows) + [r.value]
      ensures old(ExistsByEmail(u.email)) ==> r == None && rows == old(rows)
      ensures nextId == if r.Some? then old(nextId) + 1 else old(nextId)
    {
      if ExistsByEmail(u.email) {
        return None;
      }
      var saved := u.(id := Some(nextId));
      rows := rows + [saved];
      nextId := nextId + 1;
      r := Some(saved);
    }
  }

  /** The memberships table, with its unique index on (user, tenant). */
  class MembershipRepository {
    var rows: seq<Membership>
    var nextId: int

    ghost predicate Valid()
      reads this
    {
      nextId > 0
      && (forall i :: 0 <= i < |rows| ==> rows[i].id.Some? && 0 < rows[i].id.value < nextId)
      && (forall i, j :: 0 <= i < j < |rows| ==>
            rows[i].id != rows[j].id && (rows[i].userId, rows[i].tenantId) != (rows[j].userId, rows[j].tenantId))
    }

    constructor ()
      ensures Valid() && rows == []
    {
      rows := [];
      nextId := 1;
    }

    /** Whether the user already belongs to the tenant. */
    predicate Links(userId: int, tenantId: int)
      reads this
    {
      exists i :: 0 <= i < |rows| && rows[i].userId == userId && rows[i].tenantId == tenantId
    }

    /** save of a new membership: inserted with a fresh id unless the pair is taken. */
    method Insert(m: Membership) returns (r: Option<Membership>)
      requires Valid()
      modifies this
      ensures Valid()
      ensures !old(Links(m.userId, m.tenantId)) ==> r == Some(m.(id := Some(old(nextId)))) && rows == old(rows) + [r.value]
      ensures old(Links(m.userId, m.tenantId)) ==> r == None && rows == old(rows)
      ensures nextId == if r.Some? then old(nextId) + 1 else old(nextId)
    {
      if Links(m.userId, m.tenantId) {
        return None;
      }
      var saved := m.(id := Some(nextId));
      rows := rows + [saved];
      nextId := nextId + 1;
      r := Some(saved);
    }
  }
}
