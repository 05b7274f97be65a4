/**
 * The authenticated principal. Its identity is the pair (e-mail, site code),
 * so one person signed in on two sites is two principals, and the session
 * registry counts sessions per site.
 */
module SecurityPrincipal {
  import opened Wrappers
  import opened Accounts

  // ------------------------------------------------------------ Java int hashing

  const IntRange := 0x1_0000_0000

  /** Reduces an integer to Java's 32-bit two's-complement range, as int arithmetic wraps. */
  function ToInt32(x: int): (r: int)
    ensures -0x8000_0000 <= r < 0x8000_0000
    ensures (r - x) % IntRange == 0
  {
    var m := x % IntRange;
    if m >= 0x8000_0000 then m - IntRange else m
  }

  /** String.hashCode: h = 31 * h + c over the characters, wrapping at 32 bits. */
  function StringHash(s: string): int
  {
    if s == [] then 0 else ToInt32(31 * StringHash(s[..|s| - 1]) + s[|s| - 1] as int)
  }

  /** Objects.hash of two non-null strings. */
  function PairHash(a: string, b: string): int {
    ToInt32(31 * ToInt32(31 * 1 + StringHash(a)) + StringHash(b))
  }

  // ------------------------------------------------------------ the principal

  datatype CustomUserDetails = CustomUserDetails(
    userId: Option<int>,
    email: string,
    password: string,
    nickname: string,
    siteCode: string,
    role: Role,
    authorities: seq<string>,
    enabled: bool,
    accountNonLocked: bool,
    accountNonExpired: bool,
    credentialsNonExpired: bool)

  /** The constructor: the user's identity fields, the site and role, one authority, never expired. */
  function NewPrincipal(user: User, siteCode: string, role: Role, enabled: bool, accountNonLocked: bool): (p: CustomUserDetails)
    ensures p.userId == user.id && p.email == user.email && p.password == user.password && p.nickname == user.nickname
    ensures p.siteCode == siteCode && p.role == role
    ensures p.authorities == [RoleKey(role)]
    ensures p.enabled == enabled && p.accountNonLocked == accountNonLocked
    ensures p.accountNonExpired && p.credentialsNonExpired
  {
    CustomUserDetails(user.id, user.email, user.password, user.nickname, siteCode, role, [RoleKey(role)],
                      enabled, accountNonLocked, true, true)
  }

  /** equals: the same e-mail on the same site. */
  predicate SamePrincipal(a: CustomUserDetails, b: CustomUserDetails) {
    a.email == b.email && a.siteCode == b.siteCode
  }

  /** hashCode. */
  function Hash(p: CustomUserDetails): int {
    PairHash(p.email, p.siteCode)
  }

  /** getUsername: the principal name is the e-mail address. */
  function Username(p: CustomUserDetails): string {
    p.email
  }

  /** equals is an equivalence, and hashCode agrees with it. */
  lemma SamePrincipalIsEquivalence(a: CustomUserDetails, b: CustomUserDetails, c: CustomUserDetails)
    ensures SamePrincipal(a, a)
    ensures SamePrincipal(a, b) ==> SamePrincipal(b, a)
    ensures SamePrincipal(a, b) && SamePrincipal(b, c) ==> SamePrincipal(a, c)
    ensures SamePrincipal(a, b) ==> Hash(a) == Hash(b) && Username(a) == Username(b)
  {
  }

  /** Role, user id, nickname and flags play no part in identity. */
  lemma IdentityIgnoresRole(user: User, siteCode: string, r1: Role, r2: Role, e1: bool, e2: bool, l1: bool, l2: bool, other: User)
    requires other.email == user.email
    ensures SamePrincipal(NewPrincipal(user, siteCode, r1, e1, l1), NewPrincipal(other, siteCode, r2, e2, l2))
  {
  }

  /** The same account on two sites is two different principals. */
  lemma SitesSeparatePrincipals(user: User, s1: string, s2: string, r1: Role, r2: Role)
    requires s1 != s2
    ensures !SamePrincipal(NewPrincipal(user, s1, r1, true, true), NewPrincipal(user, s2, r2, true, true))
  {
  }
}
