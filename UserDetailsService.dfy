/**
 * Loading the account that signs in: only the membership of the user in the
 * site being visited counts, and the account and membership states decide
 * whether the login is disabled or locked.
 */
module UserDetailsLoading {
  import opened Wrappers
  import JavaStrings
  import opened TenantDomain
  import opened Accounts

  const NoTenantMessage := "접속 경로의 테넌트 정보를 확인할 수 없습니다."

  /** The UsernameNotFoundException. */
  datatype UsernameNotFound = UsernameNotFound(message: string)

  /** The message naming the e-mail and the site when there is no such membership. */
  function NotMemberMessage(email: string, siteCode: string): string {
    "User '" + email + "' not found or not a member of '" + siteCode + "'"
  }

  /** The framework user record the service builds. */
  datatype LoadedUser = LoadedUser(
    username: string,
    password: string,
    authorities: seq<string>,
    disabled: bool,
    locked: bool,
    accountExpired: bool,
    credentialsExpired: bool)

  /** The first user with the id. */
  function UserById(users: seq<User>, id: int): (r: Option<User>)
    ensures r.Some? ==> r.value in users && r.value.id == Some(id)
    ensures r.None? ==> forall i :: 0 <= i < |users| ==> users[i].id != Some(id)
  {
    if users == [] then None
    else if users[0].id == Some(id) then Some(users[0])
    else UserById(users[1..], id)
  }

  /** The first tenant with the id. */
  function TenantById(tenants: seq<TenantRecord>, id: int): (r: Option<TenantRecord>)
    ensures r.Some? ==> r.value in tenants && r.value.id == Some(id)
    ensures r.None? ==> forall i :: 0 <= i < |tenants| ==> tenants[i].id != Some(id)
  {
    if tenants == [] then None
    else if tenants[0].id == Some(id) then Some(tenants[0])
    else TenantById(tenants[1..], id)
  }

  /** A membership that joins a user with this e-mail to a tenant with this site code. */
  predicate Joins(users: seq<User>, tenants: seq<TenantRecord>, m: Membership, email: string, siteCode: string) {
    var u := UserById(users, m.userId);
    var t := TenantById(tenants, m.tenantId);
    u.Some? && u.value.email == email && t.Some? && t.value.siteCode == siteCode
  }

  /** findActiveMembership: the membership of (e-mail, site code), fetched with its user. */
  function FindActiveMembership(users: seq<User>, tenants: seq<TenantRecord>, memberships: seq<Membership>,
                                email: string, siteCode: string): (r: Option<(User, Membership)>)
    ensures r.Some? ==> r.value.1 in memberships && Joins(users, tenants, r.value.1, email, siteCode)
                        && Some(r.value.0) == UserById(users, r.value.1.userId)
    ensures r.None? ==> forall i :: 0 <= i < |memberships| ==> !Joins(users, tenants, memberships[i], email, siteCode)
  {
    if memberships == [] then None
    else if Joins(users, tenants, memberships[0], email, siteCode)
    then Some((UserById(users, memberships[0].userId).value, memberships[0]))
    else
      var r := FindActiveMembership(users, tenants, memberships[1..], email, siteCode);
      assert forall i :: 1 <= i < |memberships| ==> memberships[i] == memberships[1..][i - 1];
      r
  }

  /**
   * loadUserByUsername: without a bound site code, or without a membership
   * in it, the user is not found; otherwise the e-mail is the user name, the
   * membership's role the only authority, and the two states give the flags.
   */
  function LoadUserByUsername(currentSiteCode: Option<string>, email: string,
                              users: seq<User>, tenants: seq<TenantRecord>, memberships: seq<Membership>): (r: Result<LoadedUser, UsernameNotFound>)
    ensures !Present(currentSiteCode) ==> r == Err(UsernameNotFound(NoTenantMessage))
    ensures Present(currentSiteCode) ==>
      match FindActiveMembership(users, tenants, memberships, email, currentSiteCode.value) {
        case None => r == Err(UsernameNotFound(NotMemberMessage(email, currentSiteCode.value)))
        case Some((user, m)) =>
          r.Ok? && r.value.username == user.email && r.value.password == user.password
          && r.value.authorities == [RolePrefix + RoleName(m.role)]
          && (r.value.disabled <==> user.status != UserStatus.ACTIVE || m.status != MembershipStatus.ACTIVE)
          && (r.value.locked <==> user.status == UserStatus.LOCKED || m.status == MembershipStatus.BANNED)
          && !r.value.accountExpired && !r.value.credentialsExpired
      }
  {
    if !Present(currentSiteCode) then Err(UsernameNotFound(NoTenantMessage))
    else
      var site := currentSiteCode.value;
      match FindActiveMembership(users, tenants, memberships, email, site) {
        case None => Err(UsernameNotFound(NotMemberMessage(email, site)))
        case Some((user, m)) =>
          Ok(LoadedUser(user.email, user.password, [RolePrefix + RoleName(m.role)],
                        user.status != UserStatus.ACTIVE || m.status != MembershipStatus.ACTIVE,
                        user.status == UserStatus.LOCKED || m.status == MembershipStatus.BANNED,
                        false, false))
      }
  }

  /** A locked account is always disabled as well. */
  lemma LockedIsDisabled(currentSiteCode: Option<string>, email: string,
                         users: seq<User>, tenants: seq<TenantRecord>, memberships: seq<Membership>)
    requires LoadUserByUsername(currentSiteCode, email, users, tenants, memberships).Ok?
    ensures var u := LoadUserByUsername(currentSiteCode, email, users, tenants, memberships).value;
      u.locked ==> u.disabled
  {
  }

  /** Memberships in other sites make no difference to a login. */
  lemma OtherSitesIgnored(currentSiteCode: string, email: string, users: seq<User>, tenants: seq<TenantRecord>,
                          memberships: seq<Membership>, extra: Membership)
    requires TenantById(tenants, extra.tenantId).Some? && TenantById(tenants, extra.tenantId).value.siteCode != currentSiteCode
    ensures LoadUserByUsername(Some(currentSiteCode), email, users, tenants, [extra] + memberships)
            == LoadUserByUsername(Some(currentSiteCode), email, users, tenants, memberships)
  {
    assert ([extra] + memberships)[1..] == memberships;
  }
}
