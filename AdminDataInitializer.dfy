/**
 * The start-up bootstrap of the super administrator: one user, the system
 * tenant (reused when its site code is already registered) and an ADMIN
 * membership linking the two, all in one transaction, and nothing at all
 * once the administrator's e-mail address is registered.
 */
module AdminBootstrap {
  import opened Wrappers
  import JavaStrings
  import opened TenantDomain
  import opened TenantStore
  import opened Accounts
  import UserDetailsLoading

  const AdminTenantDescription := "System Administration Workspace"

  /** The configured administrator (its password still in clear text). */
  datatype AdminUser = AdminUser(email: string, password: string, nickname: string)

  /** The configured system tenant. */
  datatype SystemTenant = SystemTenant(siteCode: string, domain: string, name: string)

  /** The contents of the three tables, with the next identity value of each. */
  datatype Tables = Tables(
    users: seq<User>, userNext: int,
    tenants: seq<TenantRecord>, tenantNext: int,
    memberships: seq<Membership>, membershipNext: int)

  /** Every stored tenant has been given an id. */
  predicate TenantIds(rows: seq<TenantRecord>) {
    forall i :: 0 <= i < |rows| ==> rows[i].id.Some?
  }

  /** The administrator's user row, with the already encoded password. */
  function AdminRow(admin: AdminUser, encodedPassword: string, id: int): User {
    NewUser(admin.email, admin.nickname, encodedPassword, Some(UserStatus.ACTIVE)).(id := Some(id))
  }

  /** The system tenant's row as the builder makes it. */
  function SystemTenantRow(site: SystemTenant, id: int): TenantRecord {
    TenantRecord(Some(id), site.siteCode, site.domain, site.name, Some(AdminTenantDescription), ThemeOrDefault(None), false, false)
  }

  /** Appends the ADMIN membership of the user in the tenant. */
  function Link(s: Tables, userId: int, tenantId: int): Tables {
    s.(memberships := s.memberships + [NewMembership(userId, tenantId, Some(ADMIN), None).(id := Some(s.membershipNext))],
       membershipNext := s.membershipNext + 1)
  }

  /** run, as a function of the tables before it: the new tables, or the failure that rolls it all back. */
  function Bootstrap(s: Tables, admin: AdminUser, site: SystemTenant, encodedPassword: string): Result<Tables, StoreError>
    requires TenantIds(s.tenants)
  {
    if exists i :: 0 <= i < |s.users| && s.users[i].email == admin.email then Ok(s)
    else
      var withUser := s.(users := s.users + [AdminRow(admin, encodedPassword, s.userNext)], userNext := s.userNext + 1);
      match FirstWithSiteCode(s.tenants, site.siteCode) {
        case Some(t) => Ok(Link(withUser, s.userNext, t.id.value))
        case None =>
          var row := SystemTenantRow(site, s.tenantNext);
          if Clashes(s.tenants, row, None) then Err(UniqueConstraintViolation)
          else Ok(Link(withUser.(tenants := s.tenants + [row], tenantNext := s.tenantNext + 1), s.userNext, s.tenantNext))
      }
  }

  /** Running the bootstrap on its own result changes nothing. */
  lemma BootstrapIdempotent(s: Tables, admin: AdminUser, site: SystemTenant, encodedPassword: string)
    requires TenantIds(s.tenants)
    requires Bootstrap(s, admin, site, encodedPassword).Ok?
    ensures TenantIds(Bootstrap(s, admin, site, encodedPassword).value.tenants)
    ensures Bootstrap(Bootstrap(s, admin, site, encodedPassword).value, admin, site, encodedPassword)
            == Bootstrap(s, admin, site, encodedPassword)
  {
    var s1 := Bootstrap(s, admin, site, encodedPassword).value;
    if !exists i :: 0 <= i < |s.users| && s.users[i].email == admin.email {
      assert s1.users[|s1.users| - 1].email == admin.email;
    }
  }

  /**
   * A fresh bootstrap adds exactly one ACTIVE administrator and one ADMIN
   * membership of that user in the tenant registered under the configured
   * site code, which is added only when it was missing.
   */
  lemma BootstrapCreates(s: Tables, admin: AdminUser, site: SystemTenant, encodedPassword: string)
    requires TenantIds(s.tenants)
    requires !exists i :: 0 <= i < |s.users| && s.users[i].email == admin.email
    requires Bootstrap(s, admin, site, encodedPassword).Ok?
    ensures var s1 := Bootstrap(s, admin, site, encodedPassword).value;
      s1.users == s.users + [User(Some(s.userNext), admin.email, admin.nickname, encodedPassword, UserStatus.ACTIVE)]
      && (exists t :: t in s1.tenants && t.siteCode == site.siteCode
            && s1.memberships == s.memberships + [Membership(Some(s.membershipNext), s.userNext, t.id.value, ADMIN, MembershipStatus.ACTIVE)])
      && |s1.tenants| <= |s.tenants| + 1
  {
    var s1 := Bootstrap(s, admin, site, encodedPassword).value;
    match FirstWithSiteCode(s.tenants, site.siteCode) {
      case Some(t) =>
        assert t in s1.tenants;
      case None =>
        var row := SystemTenantRow(site, s.tenantNext);
        assert s1.tenants[|s1.tenants| - 1] == row;
    }
  }

  /** The bootstrap fails exactly when the system tenant must be created but its domain is taken. */
  lemma BootstrapFailsOnTakenDomain(s: Tables, admin: AdminUser, site: SystemTenant, encodedPassword: string)
    requires TenantIds(s.tenants)
    ensures Bootstrap(s, admin, site, encodedPassword).Err? <==>
      (!exists i :: 0 <= i < |s.users| && s.users[i].email == admin.email)
      && (!exists i :: 0 <= i < |s.tenants| && s.tenants[i].siteCode == site.siteCode)
      && (exists i :: 0 <= i < |s.tenants| && s.tenants[i].domainPattern == site.domain)
  {
  }

  /** What the three tables guarantee: issued ids, the unique indexes, and memberships of issued users. */
  ghost predicate Consistent(s: Tables) {
    (forall i :: 0 <= i < |s.users| ==> s.users[i].id.Some? && s.users[i].id.value < s.userNext)
    && (forall i, j :: 0 <= i < j < |s.users| ==> s.users[i].email != s.users[j].email)
    && Unique(s.tenants)
    && (forall i :: 0 <= i < |s.tenants| ==> s.tenants[i].id.Some? && s.tenants[i].id.value < s.tenantNext)
    && (forall i :: 0 <= i < |s.memberships| ==> s.memberships[i].userId < s.userNext)
  }

  /** Looking a user up by id in a table with one more row. */
  lemma {:induction false} UserByIdAppend(users: seq<User>, u: User, id: int)
    ensures UserDetailsLoading.UserById(users + [u], id)
            == if UserDetailsLoading.UserById(users, id).Some? then UserDetailsLoading.UserById(users, id)
               else if u.id == Some(id) then Some(u) else None
  {
    if users != [] {
      assert (users + [u])[1..] == users[1..] + [u];
      UserByIdAppend(users[1..], u, id);
    }
  }

  /** In a tenant table with unique ids, the lookup by id finds the row carrying it. */
  lemma {:induction false} TenantByIdFinds(tenants: seq<TenantRecord>, t: TenantRecord)
    requires Unique(tenants) && t in tenants && t.id.Some?
    ensures UserDetailsLoading.TenantById(tenants, t.id.value) == Some(t)
  {
    if tenants[0] != t {
      assert t in tenants[1..];
      assert Unique(tenants[1..]) by {
        forall i, j | 0 <= i < j < |tenants[1..]|
          ensures tenants[1..][i].id != tenants[1..][j].id
            && tenants[1..][i].domainPattern != tenants[1..][j].domainPattern
            && tenants[1..][i].siteCode != tenants[1..][j].siteCode
        {
          assert tenants[1..][i] == tenants[i + 1] && tenants[1..][j] == tenants[j + 1];
        }
      }
      var k :| 0 <= k < |tenants| && tenants[k] == t;
      assert tenants[0].id != t.id;
      TenantByIdFinds(tenants[1..], t);
    }
  }

  /** Appending one membership after memberships none of which joins. */
  lemma {:induction false} FindAppend(users: seq<User>, tenants: seq<TenantRecord>, ms: seq<Membership>, m: Membership,
                                      email: string, siteCode: string)
    requires forall i :: 0 <= i < |ms| ==> !UserDetailsLoading.Joins(users, tenants, ms[i], email, siteCode)
    ensures UserDetailsLoading.FindActiveMembership(users, tenants, ms + [m], email, siteCode)
            == if UserDetailsLoading.Joins(users, tenants, m, email, siteCode)
               then Some((UserDetailsLoading.UserById(users, m.userId).value, m)) else None
  {
    if ms != [] {
      assert (ms + [m])[1..] == ms[1..] + [m];
      assert !UserDetailsLoading.Joins(users, tenants, ms[0], email, siteCode);
      FindAppend(users, tenants, ms[1..], m, email, siteCode);
    } else {
      assert [] + [m] == [m];
    }
  }

  /** A newly added user's only membership is found for the user's e-mail and the linked site. */
  lemma FindsNewMember(users: seq<User>, row: User, tenants: seq<TenantRecord>, ms: seq<Membership>, m: Membership, siteCode: string)
    requires row.id.Some? && m.userId == row.id.value
    requires forall i :: 0 <= i < |users| ==> users[i].id.Some? && users[i].id.value < m.userId && users[i].email != row.email
    requires forall i :: 0 <= i < |ms| ==> ms[i].userId < m.userId
    requires UserDetailsLoading.TenantById(tenants, m.tenantId).Some?
    requires UserDetailsLoading.TenantById(tenants, m.tenantId).value.siteCode == siteCode
    ensures UserDetailsLoading.FindActiveMembership(users + [row], tenants, ms + [m], row.email, siteCode) == Some((row, m))
  {
    forall id ensures UserDetailsLoading.UserById(users + [row], id)
                      == if UserDetailsLoading.UserById(users, id).Some? then UserDetailsLoading.UserById(users, id)
                         else if row.id == Some(id) then Some(row) else None {
      UserByIdAppend(users, row, id);
    }
    forall i | 0 <= i < |ms|
      ensures !UserDetailsLoading.Joins(users + [row], tenants, ms[i], row.email, siteCode)
    {
      var u := UserDetailsLoading.UserById(users, ms[i].userId);
      if u.Some? {
        assert u.value in users;
      }
    }
    FindAppend(users + [row], tenants, ms, m, row.email, siteCode);
  }

  /** The tenant a fresh bootstrap links the administrator to carries the configured site code. */
  lemma LinkedTenantHasSiteCode(s: Tables, admin: AdminUser, site: SystemTenant, encodedPassword: string)
    requires Consistent(s) && TenantIds(s.tenants)
    requires !exists i :: 0 <= i < |s.users| && s.users[i].email == admin.email
    requires Bootstrap(s, admin, site, encodedPassword).Ok?
    ensures var s1 := Bootstrap(s, admin, site, encodedPassword).value;
      var m := s1.memberships[|s1.memberships| - 1];
      UserDetailsLoading.TenantById(s1.tenants, m.tenantId).Some?
      && UserDetailsLoading.TenantById(s1.tenants, m.tenantId).value.siteCode == site.siteCode
  {
    var s1 := Bootstrap(s, admin, site, encodedPassword).value;
    match FirstWithSiteCode(s.tenants, site.siteCode) {
      case Some(t) =>
        TenantByIdFinds(s1.tenants, t);
      case None =>
        var trow := SystemTenantRow(site, s.tenantNext);
        assert s1.tenants == s.tenants + [trow];
        assert Unique(s1.tenants) by {
          forall i | 0 <= i < |s.tenants| ensures s.tenants[i].id != trow.id { }
        }
        TenantByIdFinds(s1.tenants, trow);
    }
  }

  /**
   * After a fresh bootstrap the administrator can sign in on the system site:
   * the account loads under its e-mail with the ADMIN authority, enabled and
   * not locked.
   */
  lemma BootstrappedAdminLoads(s: Tables, admin: AdminUser, site: SystemTenant, encodedPassword: string)
    requires Consistent(s) && TenantIds(s.tenants)
    requires JavaStrings.HasText(site.siteCode)
    requires !exists i :: 0 <= i < |s.users| && s.users[i].email == admin.email
    requires Bootstrap(s, admin, site, encodedPassword).Ok?
    ensures var s1 := Bootstrap(s, admin, site, encodedPassword).value;
      UserDetailsLoading.LoadUserByUsername(Some(site.siteCode), admin.email, s1.users, s1.tenants, s1.memberships)
      == Ok(UserDetailsLoading.LoadedUser(admin.email, encodedPassword, [RoleKey(ADMIN)], false, false, false, false))
  {
    var s1 := Bootstrap(s, admin, site, encodedPassword).value;
    var row := AdminRow(admin, encodedPassword, s.userNext);
    var m := s1.memberships[|s1.memberships| - 1];
    assert s1.users == s.users + [row];
    assert s1.memberships == s.memberships + [m];
    LinkedTenantHasSiteCode(s, admin, site, encodedPassword);
    FindsNewMember(s.users, row, s1.tenants, s.memberships, m, site.siteCode);
    LoadsActiveAdmin(s1.users, s1.tenants, s1.memberships, site.siteCode, row, m);
  }

  /** An ACTIVE user found with an ACTIVE ADMIN membership loads enabled, unlocked, with the ADMIN authority. */
  lemma LoadsActiveAdmin(users: seq<User>, tenants: seq<TenantRecord>, ms: seq<Membership>, siteCode: string, row: User, m: Membership)
    requires JavaStrings.HasText(siteCode)
    requires UserDetailsLoading.FindActiveMembership(users, tenants, ms, row.email, siteCode) == Some((row, m))
    requires row.status == UserStatus.ACTIVE && m.status == MembershipStatus.ACTIVE && m.role == ADMIN
    ensures UserDetailsLoading.LoadUserByUsername(Some(siteCode), row.email, users, tenants, ms)
      == Ok(UserDetailsLoading.LoadedUser(row.email, row.password, [RoleKey(ADMIN)], false, false, false, false))
  {
  }

  class AdminDataInitializer {
    const users: UserRepository
    const tenants: TenantRepository
    const memberships: MembershipRepository

    /** Each repository keeps its indexes, and every membership refers to an already issued user id. */
    ghost predicate Valid()
      reads this, users, tenants, memberships
    {
      users.Valid() && tenants.Valid() && memberships.Valid()
      && forall i :: 0 <= i < |memberships.rows| ==> memberships.rows[i].userId < users.nextId
    }

    constructor (users: UserRepository, tenants: TenantRepository, memberships: MembershipRepository)
      requires users.Valid() && tenants.Valid() && memberships.Valid()
      requires forall i :: 0 <= i < |memberships.rows| ==> memberships.rows[i].userId < users.nextId
      ensures Valid() && this.users == users && this.tenants == tenants && this.memberships == memberships
    {
      this.users := users;
      this.tenants := tenants;
      this.memberships := memberships;
    }

    /** The three tables as they stand. */
    ghost function Current(): Tables
      reads this, users, tenants, memberships
    {
      Tables(users.rows, users.nextId, tenants.rows, tenants.nextId, memberships.rows, memberships.nextId)
    }

    /** The repositories' invariants are what the bootstrap lemmas assume of the tables. */
    lemma ValidIsConsistent()
      requires Valid()
      ensures Consistent(Current()) && TenantIds(Current().tenants)
    {
    }

    /** The system tenant's id: the registered one, or a newly inserted row unless its domain is taken. */
    method EnsureSystemTenant(site: SystemTenant) returns (r: Result<int, StoreError>)
      requires tenants.Valid()
      modifies tenants
      ensures tenants.Valid()
      ensures TenantIds(old(tenants.rows))
      ensures match FirstWithSiteCode(old(tenants.rows), site.siteCode) {
        case Some(t) => r == Ok(t.id.value) && tenants.rows == old(tenants.rows) && tenants.nextId == old(tenants.nextId)
        case None =>
          var row := SystemTenantRow(site, old(tenants.nextId));
          if Clashes(old(tenants.rows), row, None)
          then r == Err(UniqueConstraintViolation) && tenants.rows == old(tenants.rows) && tenants.nextId == old(tenants.nextId)
          else r == Ok(old(tenants.nextId)) && tenants.rows == old(tenants.rows) + [row] && tenants.nextId == old(tenants.nextId) + 1
      }
    {
      var existing := tenants.FindBySiteCode(site.siteCode);
      if existing.Some? {
        return Ok(existing.value.id.value);
      }
      var tenant := new Tenant.Build(site.siteCode, site.domain, site.name, Some(AdminTenantDescription), None);
      var saved := tenants.Save(tenant.Snapshot());
      if saved.Err? {
        return Err(saved.error);
      }
      r := Ok(saved.value.id.value);
    }

    /**
     * The steps after the e-mail check: the administrator is saved, the system
     * tenant found or created, and the two linked by an ADMIN membership. A
     * failure rolls back the user already inserted (the consumed identity
     * value is not given back).
     */
    method CreateAdmin(admin: AdminUser, site: SystemTenant, encodedPassword: string) returns (r: Result<(), StoreError>)
      requires Valid() && !users.ExistsByEmail(admin.email)
      modifies users, tenants, memberships
      ensures Valid()
      ensures var b := Bootstrap(old(Current()), admin, site, encodedPassword);
        (b.Ok? ==> r.Ok? && Current() == b.value)
        && (b.Err? ==> r == Err(b.error) && users.rows == old(users.rows) && tenants.rows == old(tenants.rows)
                       && memberships.rows == old(memberships.rows))
    {
      ghost var before := Current();
      var savedUsers := users.rows;
      var userId := users.nextId;
      var inserted := users.Insert(NewUser(admin.email, admin.nickname, encodedPassword, Some(UserStatus.ACTIVE)));
      ghost var withUser := before.(users := before.users + [AdminRow(admin, encodedPassword, userId)], userNext := userId + 1);
      assert Current() == withUser;
      var tenantId := EnsureSystemTenant(site);
      if tenantId.Err? {
        users.rows := savedUsers;
        return Err(tenantId.error);
      }
      ghost var withTenant := Current();
      assert !memberships.Links(userId, tenantId.value);
      var linked := memberships.Insert(NewMembership(userId, tenantId.value, Some(ADMIN), None));
      assert Current() == Link(withTenant, userId, tenantId.value);
      forall i | 0 <= i < |memberships.rows| ensures memberships.rows[i].userId < users.nextId {
        if i < |withTenant.memberships| {
          assert memberships.rows[i] == withTenant.memberships[i];
        }
      }
      r := Ok(());
    }

    /** run: does what Bootstrap describes; a registered administrator leaves every table as it was. */
    method Run(admin: AdminUser, site: SystemTenant, encodedPassword: string) returns (r: Result<(), StoreError>)
      requires Valid()
      modifies users, tenants, memberships
      ensures Valid()
      ensures var b := Bootstrap(old(Current()), admin, site, encodedPassword);
        (b.Ok? ==> r.Ok? && Current() == b.value)
        && (b.Err? ==> r == Err(b.error) && users.rows == old(users.rows) && tenants.rows == old(tenants.rows)
                       && memberships.rows == old(memberships.rows))
    {
      if users.ExistsByEmail(admin.email) {
        return Ok(());
      }
      r := CreateAdmin(admin, site, encodedPassword);
    }
  }
}
