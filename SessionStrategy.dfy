/**
 * Tenant-aware concurrent-session control: the session limit for a login
 * (site policy, then role policy, then the default), and the expiry of the
 * least recently used sessions when a login reaches the limit. Exceeding the
 * limit never rejects the new login.
 */
module SessionControl {
  import opened Wrappers
  import opened Accounts
  import opened SecurityPrincipal
  import opened AmbientContext

  const Unlimited := -1

  /** SecurityProperties.SessionControl; either map may be absent. */
  datatype SessionConfig = SessionConfig(
    roleLimits: Option<map<string, int>>,
    siteLimits: Option<map<string, int>>,
    defaultLimit: int)

  predicate HasKey(m: Option<map<string, int>>, k: string) {
    m.Some? && k in m.value
  }

  /** getMaximumSessionsForThisUser. */
  function MaximumSessions(config: Option<SessionConfig>, principal: PrincipalValue): (r: int)
    ensures !principal.Member? ==> r == 1
    ensures principal.Member? && config.None? ==> r == 1
    ensures principal.Member? && config.Some? && HasKey(config.value.siteLimits, principal.details.siteCode) ==>
      r == config.value.siteLimits.value[principal.details.siteCode]
    ensures principal.Member? && config.Some? && !HasKey(config.value.siteLimits, principal.details.siteCode)
            && HasKey(config.value.roleLimits, RoleName(principal.details.role)) ==>
      r == config.value.roleLimits.value[RoleName(principal.details.role)]
    ensures principal.Member? && config.Some? && !HasKey(config.value.siteLimits, principal.details.siteCode)
            && !HasKey(config.value.roleLimits, RoleName(principal.details.role)) ==>
      r == config.value.defaultLimit
  {
    match principal {
      case Member(details) =>
        match config {
          case None => 1
          case Some(c) =>
            if HasKey(c.siteLimits, details.siteCode) then c.siteLimits.value[details.siteCode]
            else if HasKey(c.roleLimits, RoleName(details.role)) then c.roleLimits.value[RoleName(details.role)]
            else c.defaultLimit
        }
      case _ => 1
    }
  }

  /** A site policy overrides a role policy for the same user, whatever the two limits are. */
  lemma SiteLimitOverridesRoleLimit(c: SessionConfig, d: CustomUserDetails, siteLimit: int, roleLimit: int)
    requires c.siteLimits == Some(map[d.siteCode := siteLimit])
    requires c.roleLimits == Some(map[RoleName(d.role) := roleLimit])
    ensures MaximumSessions(Some(c), Member(d)) == siteLimit
  {
  }

  // ---------------------------------------------------------------- eviction order

  /** Session j was used before session i: older lastRequest, ties broken by list position (a stable sort). */
  predicate Before(lastRequests: seq<int>, j: int, i: int)
    requires 0 <= j < |lastRequests| && 0 <= i < |lastRequests|
  {
    lastRequests[j] < lastRequests[i] || (lastRequests[j] == lastRequests[i] && j < i)
  }

  /** The sessions that come before session i once sorted by lastRequest. */
  function Predecessors(lastRequests: seq<int>, i: int): set<int>
    requires 0 <= i < |lastRequests|
  {
    set j | 0 <= j < |lastRequests| && Before(lastRequests, j, i)
  }

  /** Session i is among the first `count` of the sessions sorted by lastRequest. */
  predicate AmongOldest(lastRequests: seq<int>, count: int, i: int)
    requires 0 <= i < |lastRequests|
  {
    |Predecessors(lastRequests, i)| < count
  }

  /** A session used earlier has strictly fewer predecessors. */
  lemma PredecessorsGrow(lastRequests: seq<int>, j: int, i: int)
    requires 0 <= j < |lastRequests| && 0 <= i < |lastRequests|
    ensures Before(lastRequests, j, i) ==> |Predecessors(lastRequests, j)| < |Predecessors(lastRequests, i)|
  {
    if Before(lastRequests, j, i) {
      var pi, pj := Predecessors(lastRequests, i), Predecessors(lastRequests, j);
      assert pj <= pi;
      assert j in pi - pj;
      assert pi == pj + (pi - pj);
    }
  }

  /** Every expired session was used no later than every kept one. */
  lemma ExpiredPrecedeKept(lastRequests: seq<int>, count: int, i: int, j: int)
    requires 0 <= i < |lastRequests| && 0 <= j < |lastRequests|
    requires AmongOldest(lastRequests, count, i) && !AmongOldest(lastRequests, count, j)
    ensures Before(lastRequests, i, j)
    ensures lastRequests[i] <= lastRequests[j]
  {
    PredecessorsGrow(lastRequests, j, i);
  }

  /** When one session must go, it is exactly the least recently used one. */
  lemma SingleExpiryIsOldest(lastRequests: seq<int>, i: int)
    requires 0 <= i < |lastRequests|
    ensures AmongOldest(lastRequests, 1, i) <==> forall j :: 0 <= j < |lastRequests| && j != i ==> Before(lastRequests, i, j)
  {
    if forall j :: 0 <= j < |lastRequests| && j != i ==> Before(lastRequests, i, j) {
      forall k | 0 <= k < |lastRequests|
        ensures !Before(lastRequests, k, i)
      {
        if k != i {
          assert Before(lastRequests, i, k);
        }
      }
      assert Predecessors(lastRequests, i) == {};
    } else {
      var j :| 0 <= j < |lastRequests| && j != i && !Before(lastRequests, i, j);
      assert j in Predecessors(lastRequests, i);
    }
  }

  // ---------------------------------------------------------------- onAuthentication

  /** subList past the end of the list, reached with a limit of zero or below other than -1. */
  datatype SessionFailure = SubListOutOfBounds

  /**
   * How many of the `n` existing sessions the login expires with limit
   * `allowed`: none below the limit, none when unlimited, none when the
   * login's own session is already registered at exactly the limit, else
   * n - allowed + 1 (the oldest ones). `exceptionIfMaximumExceeded` is false,
   * so the login itself always proceeds.
   */
  function ExpiryCount(n: nat, allowed: int, currentRegistered: bool): (r: Result<nat, SessionFailure>)
    ensures allowed == Unlimited ==> r == Ok(0)
    ensures n < allowed ==> r == Ok(0)
    ensures allowed >= 1 && n >= allowed && !(n == allowed && currentRegistered) ==> r == Ok(n - allowed + 1)
    ensures r.Ok? ==> r.value <= n
    ensures r.Ok? && allowed >= 1 && !(n == allowed && currentRegistered) ==> n - r.value < allowed
    ensures r.Err? <==> allowed < 1 && allowed != Unlimited && !(n == allowed && currentRegistered)
  {
    if allowed == Unlimited then Ok(0)
    else if n < allowed then Ok(0)
    else if n == allowed && currentRegistered then Ok(0)
    else if n - allowed + 1 > n then Err(SubListOutOfBounds)
    else Ok(n - allowed + 1)
  }

  /**
   * A login that finds exactly `allowed` sessions, none of them its own,
   * makes room by expiring one: the least recently used, and only that one.
   */
  lemma FullAtLimitExpiresOnlyOldest(lastRequests: seq<int>, allowed: int)
    requires allowed >= 1 && |lastRequests| == allowed
    requires forall i, j :: 0 <= i < j < |lastRequests| ==> lastRequests[i] < lastRequests[j]
    ensures ExpiryCount(|lastRequests|, allowed, false) == Ok(1)
    ensures AmongOldest(lastRequests, 1, 0)
    ensures forall i :: 0 < i < |lastRequests| ==> !AmongOldest(lastRequests, 1, i)
  {
    SingleExpiryIsOldest(lastRequests, 0);
    forall i | 0 < i < |lastRequests|
      ensures !AmongOldest(lastRequests, 1, i)
    {
      SingleExpiryIsOldest(lastRequests, i);
      assert !Before(lastRequests, i, 0);
    }
  }

  /** A registered session. */
  class SessionInformation {
    const sessionId: string
    var lastRequest: int
    var expired: bool

    constructor (sessionId: string, lastRequest: int)
      ensures this.sessionId == sessionId && this.lastRequest == lastRequest && !expired
    {
      this.sessionId := sessionId;
      this.lastRequest := lastRequest;
      expired := false;
    }

    method ExpireNow()
      modifies this
      ensures expired && lastRequest == old(lastRequest)
    {
      expired := true;
    }
  }

  ghost function LastRequests(sessions: seq<SessionInformation>): (r: seq<int>)
    reads set s | s in sessions
    ensures |r| == |sessions| && forall i :: 0 <= i < |sessions| ==> r[i] == sessions[i].lastRequest
  {
    if sessions == [] then [] else [sessions[0].lastRequest] + LastRequests(sessions[1..])
  }

  predicate Registered(sessions: seq<SessionInformation>, current: Option<string>) {
    current.Some? && exists i :: 0 <= i < |sessions| && sessions[i].sessionId == current.value
  }

  /** The number of sessions before session i, counted with a loop. */
  method CountPredecessors(lastRequests: seq<int>, i: int) returns (count: nat)
    requires 0 <= i < |lastRequests|
    ensures count == |Predecessors(lastRequests, i)|
  {
    count := 0;
    var j := 0;
    while j < |lastRequests|
      invariant 0 <= j <= |lastRequests|
      invariant count == |set k | 0 <= k < j && Before(lastRequests, k, i)|
    {
      ghost var seen := set k | 0 <= k < j && Before(lastRequests, k, i);
      if Before(lastRequests, j, i) {
        assert (set k | 0 <= k < j + 1 && Before(lastRequests, k, i)) == seen + {j};
        count := count + 1;
      } else {
        assert (set k | 0 <= k < j + 1 && Before(lastRequests, k, i)) == seen;
      }
      j := j + 1;
    }
    assert (set k | 0 <= k < |lastRequests| && Before(lastRequests, k, i)) == Predecessors(lastRequests, i);
  }

  /** Whether the login's own session is among the registered ones. */
  method IsRegistered(sessions: seq<SessionInformation>, current: Option<string>) returns (b: bool)
    ensures b == Registered(sessions, current)
  {
    if current.None? {
      return false;
    }
    var k := 0;
    while k < |sessions|
      invariant 0 <= k <= |sessions|
      invariant forall m :: 0 <= m < k ==> sessions[m].sessionId != current.value
    {
      if sessions[k].sessionId == current.value {
        return true;
      }
      k := k + 1;
    }
    return false;
  }

  /** Expires every session among the oldest `count`, leaving the others as they were. */
  method ExpireOldest(sessions: seq<SessionInformation>, count: nat)
    requires forall i, j :: 0 <= i < j < |sessions| ==> sessions[i] != sessions[j]
    modifies set s | s in sessions
    ensures forall i :: 0 <= i < |sessions| ==> sessions[i].lastRequest == old(sessions[i].lastRequest)
    ensures forall i :: 0 <= i < |sessions| ==>
      sessions[i].expired == (old(sessions[i].expired) || AmongOldest(old(LastRequests(sessions)), count, i))
  {
    var lastRequests := seq(|sessions|, i requires 0 <= i < |sessions| reads sessions => sessions[i].lastRequest);
    assert lastRequests == LastRequests(sessions);
    var i := 0;
    while i < |sessions|
      invariant 0 <= i <= |sessions|
      invariant forall m :: 0 <= m < |sessions| ==> sessions[m].lastRequest == lastRequests[m]
      invariant forall m :: 0 <= m < i ==>
        sessions[m].expired == (old(sessions[m].expired) || AmongOldest(lastRequests, count, m))
      invariant forall m :: i <= m < |sessions| ==> sessions[m].expired == old(sessions[m].expired)
    {
      var before := CountPredecessors(lastRequests, i);
      if before < count {
        sessions[i].ExpireNow();
      }
      i := i + 1;
    }
  }

  /**
   * onAuthentication with the strategy's limit: the login is never refused;
   * the sessions expired are exactly the oldest ExpiryCount ones, and nothing
   * else about any session changes.
   */
  method OnAuthentication(config: Option<SessionConfig>, principal: PrincipalValue,
                          sessions: seq<SessionInformation>, current: Option<string>)
      returns (r: Result<nat, SessionFailure>)
    requires forall i, j :: 0 <= i < j < |sessions| ==> sessions[i] != sessions[j]
    modifies set s | s in sessions
    ensures r == ExpiryCount(|sessions|, MaximumSessions(config, principal), Registered(sessions, current))
    ensures forall i :: 0 <= i < |sessions| ==> sessions[i].lastRequest == old(sessions[i].lastRequest)
    ensures forall i :: 0 <= i < |sessions| ==>
      sessions[i].expired == (old(sessions[i].expired) || (r.Ok? && AmongOldest(old(LastRequests(sessions)), r.value, i)))
  {
    var allowed := MaximumSessions(config, principal);
    var registered := IsRegistered(sessions, current);
    r := ExpiryCount(|sessions|, allowed, registered);
    if r.Err? || r.value == 0 {
      return;
    }
    ExpireOldest(sessions, r.value);
  }
}
