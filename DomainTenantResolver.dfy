/**
 * Host-name based tenant resolution: an override header, a result cache,
 * exact rules, then wildcard rules tried in priority order.
 */
module TenantResolution {
  import opened Wrappers
  import JavaStrings
  import AntMatch
  import opened TenantDomain

  const TenantHeader := "X-Tenant-ID"
  const UnknownDomainPrefix := "등록되지 않은 도메인입니다: "

  datatype UnknownTenant = UnknownTenant(message: string)

  datatype LoadFailure = LoadFailure

  /** A pattern that uses the wildcard character. */
  predicate IsWildcard(p: string) {
    '*' in p
  }

  /** IsWildcard is the refresh comparator's `contains("*")`. */
  lemma WildcardIsContainsStar(p: string)
    ensures IsWildcard(p) <==> JavaStrings.Contains(p, "*")
  {
    if '*' in p {
      var i :| 0 <= i < |p| && p[i] == '*';
      assert JavaStrings.OccursAt(p, "*", i);
    }
    if JavaStrings.Contains(p, "*") {
      var i: nat :| JavaStrings.OccursAt(p, "*", i);
      assert p[i..i + 1] == "*";
      assert p[i] == '*';
    }
  }

  // ------------------------------------------------------------ rule order

  /** The refresh comparator: `p` may come before `q` (no '*' first, then longer first). */
  predicate RankLe(p: string, q: string) {
    (!IsWildcard(p) && IsWildcard(q)) || (IsWildcard(p) == IsWildcard(q) && |p| >= |q|)
  }

  predicate SameRank(p: string, q: string) {
    IsWildcard(p) == IsWildcard(q) && |p| == |q|
  }

  predicate Sorted(ts: seq<TenantRecord>) {
    forall i, j :: 0 <= i < j < |ts| ==> RankLe(ts[i].domainPattern, ts[j].domainPattern)
  }

  /** Inserts `t` before the first element it may precede, so it stays ahead of equals. */
  function Insert(t: TenantRecord, s: seq<TenantRecord>): seq<TenantRecord> {
    if s == [] then [t]
    else if RankLe(t.domainPattern, s[0].domainPattern) then [t] + s
    else [s[0]] + Insert(t, s[1..])
  }

  /** The stable sort of refreshRules, written as an insertion sort. */
  function SortByPriority(s: seq<TenantRecord>): seq<TenantRecord> {
    if s == [] then [] else Insert(s[0], SortByPriority(s[1..]))
  }

  /** The elements of one rank, in order. */
  function OfRank(s: seq<TenantRecord>, p: string): seq<TenantRecord> {
    if s == [] then []
    else (if SameRank(s[0].domainPattern, p) then [s[0]] else []) + OfRank(s[1..], p)
  }

  lemma RankLeTotal(p: string, q: string)
    ensures RankLe(p, q) || RankLe(q, p)
  {
  }

  lemma RankLeTransitive(p: string, q: string, u: string)
    requires RankLe(p, q) && RankLe(q, u)
    ensures RankLe(p, u)
  {
  }

  lemma {:induction false} InsertPermutes(t: TenantRecord, s: seq<TenantRecord>)
    ensures multiset(Insert(t, s)) == multiset{t} + multiset(s)
  {
    if s != [] && !RankLe(t.domainPattern, s[0].domainPattern) {
      InsertPermutes(t, s[1..]);
      assert s == [s[0]] + s[1..];
    }
  }

  /** Every element of Insert(t, s) is t or an element of s. */
  lemma InsertElements(t: TenantRecord, s: seq<TenantRecord>, j: nat)
    requires j < |Insert(t, s)|
    ensures Insert(t, s)[j] == t || Insert(t, s)[j] in s
  {
    InsertPermutes(t, s);
    assert Insert(t, s)[j] in multiset(Insert(t, s));
  }

  lemma {:induction false} InsertSorted(t: TenantRecord, s: seq<TenantRecord>)
    requires Sorted(s)
    ensures Sorted(Insert(t, s))
  {
    if s == [] {
    } else if RankLe(t.domainPattern, s[0].domainPattern) {
      var r := [t] + s;
      forall i, j | 0 <= i < j < |r| ensures RankLe(r[i].domainPattern, r[j].domainPattern) {
        if i == 0 && j > 1 {
          RankLeTransitive(t.domainPattern, s[0].domainPattern, s[j - 1].domainPattern);
        }
      }
    } else {
      assert Sorted(s[1..]);
      InsertSorted(t, s[1..]);
      var rest := Insert(t, s[1..]);
      var r := [s[0]] + rest;
      forall j | 0 <= j < |rest| ensures RankLe(s[0].domainPattern, rest[j].domainPattern) {
        InsertElements(t, s[1..], j);
        if rest[j] == t {
          RankLeTotal(t.domainPattern, s[0].domainPattern);
        } else {
          var k :| 0 <= k < |s[1..]| && s[1..][k] == rest[j];
          assert s[k + 1] == rest[j];
        }
      }
      forall i, j | 0 <= i < j < |r| ensures RankLe(r[i].domainPattern, r[j].domainPattern) {
        if i == 0 {
          assert r[j] == rest[j - 1];
        } else {
          assert r[i] == rest[i - 1] && r[j] == rest[j - 1];
        }
      }
    }
  }

  lemma {:induction false} InsertOfRank(t: TenantRecord, s: seq<TenantRecord>, p: string)
    ensures OfRank(Insert(t, s), p) == (if SameRank(t.domainPattern, p) then [t] else []) + OfRank(s, p)
  {
    if s != [] {
      if RankLe(t.domainPattern, s[0].domainPattern) {
        assert ([t] + s)[1..] == s;
      } else {
        InsertOfRank(t, s[1..], p);
        assert ([s[0]] + Insert(t, s[1..]))[1..] == Insert(t, s[1..]);
        assert s[1..] == s[1..];
      }
    } else {
      assert [t][1..] == [];
    }
  }

  /**
   * Sorting keeps exactly the stored tenants, orders them by priority, and
   * keeps store order among patterns of the same rank.
   */
  lemma {:induction false} SortByPriorityCorrect(s: seq<TenantRecord>)
    ensures Sorted(SortByPriority(s))
    ensures multiset(SortByPriority(s)) == multiset(s)
    ensures forall p :: OfRank(SortByPriority(s), p) == OfRank(s, p)
  {
    if s != [] {
      SortByPriorityCorrect(s[1..]);
      InsertSorted(s[0], SortByPriority(s[1..]));
      InsertPermutes(s[0], SortByPriority(s[1..]));
      assert s == [s[0]] + s[1..];
      forall p ensures OfRank(SortByPriority(s), p) == OfRank(s, p) {
        InsertOfRank(s[0], SortByPriority(s[1..]), p);
      }
    }
  }

  // ------------------------------------------------------------ rules

  function PatternsOf(ts: seq<TenantRecord>): (r: seq<string>)
    ensures |r| == |ts| && forall i :: 0 <= i < |ts| ==> r[i] == ts[i].domainPattern
  {
    seq(|ts|, i requires 0 <= i < |ts| => ts[i].domainPattern)
  }

  /** The rule map built by putting each tenant's pattern in turn (a later put wins). */
  function RulesOf(ts: seq<TenantRecord>): map<string, string> {
    if ts == [] then map[]
    else RulesOf(ts[..|ts| - 1])[ts[|ts| - 1].domainPattern := ts[|ts| - 1].siteCode]
  }

  ghost predicate DistinctPatterns(ts: seq<TenantRecord>) {
    forall i, j :: 0 <= i < j < |ts| ==> ts[i].domainPattern != ts[j].domainPattern
  }

  /** With distinct patterns, the rule map sends each tenant's pattern to its site code and has no other key. */
  lemma {:induction false} RulesOfMaps(ts: seq<TenantRecord>)
    requires DistinctPatterns(ts)
    ensures forall i :: 0 <= i < |ts| ==> ts[i].domainPattern in RulesOf(ts) && RulesOf(ts)[ts[i].domainPattern] == ts[i].siteCode
    ensures forall p :: p in RulesOf(ts) ==> exists i :: 0 <= i < |ts| && ts[i].domainPattern == p
  {
    if ts != [] {
      var init := ts[..|ts| - 1];
      assert DistinctPatterns(init);
      RulesOfMaps(init);
      forall i | 0 <= i < |ts| - 1 ensures init[i] == ts[i] { }
    }
  }

  // ------------------------------------------------------------ matching

  /** A wildcard pattern that matches the host, with '.' as separator. */
  predicate WildMatch(p: string, host: string) {
    IsWildcard(p) && AntMatch.Match(p, host, '.')
  }

  /** The first position, from `from` on, whose pattern is a matching wildcard. */
  function FirstWildcardFrom(patterns: seq<string>, host: string, from: nat): (r: Option<nat>)
    requires from <= |patterns|
    ensures r.Some? ==> from <= r.value < |patterns| && WildMatch(patterns[r.value], host)
    ensures r.Some? ==> forall j :: from <= j < r.value ==> !WildMatch(patterns[j], host)
    ensures r.None? ==> forall j :: from <= j < |patterns| ==> !WildMatch(patterns[j], host)
    decreases |patterns| - from
  {
    if from == |patterns| then None
    else if WildMatch(patterns[from], host) then Some(from)
    else FirstWildcardFrom(patterns, host, from + 1)
  }

  /** computeSiteCode: exact rule first, then the first matching wildcard; empty when nothing applies. */
  function ComputeSiteCode(rules: map<string, string>, patterns: seq<string>, host: string): Option<string> {
    if host in rules then Some(rules[host])
    else match FirstWildcardFrom(patterns, host, 0) {
      case None => None
      case Some(i) => if patterns[i] in rules then Some(rules[patterns[i]]) else None
    }
  }

  /** The outcome of resolveSiteCode for a request. */
  function Resolution(rules: map<string, string>, patterns: seq<string>,
                      serverName: string, header: Option<string>): Result<string, UnknownTenant>
  {
    if Present(header) then Ok(header.value)
    else
      var host := JavaStrings.ToLower(serverName);
      match ComputeSiteCode(rules, patterns, host) {
        case Some(s) => Ok(s)
        case None => Err(UnknownTenant(UnknownDomainPrefix + host))
      }
  }

  class DomainTenantResolver {
    var cachedRules: map<string, string>
    var sortedPatterns: seq<string>
    var resultCache: map<string, string>

    /** Every cached answer is what the current rules compute for that host. */
    ghost predicate Valid()
      reads this
    {
      forall h :: h in resultCache ==> ComputeSiteCode(cachedRules, sortedPatterns, h) == Some(resultCache[h])
    }

    constructor ()
      ensures Valid()
      ensures cachedRules == map[] && sortedPatterns == [] && resultCache == map[]
    {
      cachedRules := map[];
      sortedPatterns := [];
      resultCache := map[];
    }

    /**
     * refreshRules: on a successful load the rules and the ordered pattern
     * list are rebuilt from the sorted tenants and the result cache is
     * emptied; a failed load leaves everything as it was.
     */
    method RefreshRules(load: Result<seq<TenantRecord>, LoadFailure>)
      requires Valid()
      modifies this
      ensures Valid()
      ensures load.Err? ==> cachedRules == old(cachedRules) && sortedPatterns == old(sortedPatterns)
                            && resultCache == old(resultCache)
      ensures load.Ok? ==> cachedRules == RulesOf(SortByPriority(load.value))
                           && sortedPatterns == PatternsOf(SortByPriority(load.value))
                           && resultCache == map[]
    {
      if load.Err? {
        return;
      }
      var all := SortByPriority(load.value);
      var newRules: map<string, string> := map[];
      var newSortedKeys: seq<string> := [];
      var i := 0;
      while i < |all|
        invariant 0 <= i <= |all|
        invariant newRules == RulesOf(all[..i])
        invariant newSortedKeys == PatternsOf(all[..i])
      {
        assert all[..i + 1][..i] == all[..i];
        newRules := newRules[all[i].domainPattern := all[i].siteCode];
        newSortedKeys := newSortedKeys + [all[i].domainPattern];
        i := i + 1;
      }
      assert all[..i] == all;
      cachedRules := newRules;
      sortedPatterns := newSortedKeys;
      resultCache := map[];
    }

    /**
     * resolveSiteCode: a non-blank override header wins; otherwise the
     * lower-cased host is looked up in the result cache or computed, and only
     * a found site code is cached.
     */
    method ResolveSiteCode(serverName: string, header: Option<string>) returns (r: Result<string, UnknownTenant>)
      requires Valid()
      modifies this`resultCache
      ensures Valid()
      ensures r == Resolution(cachedRules, sortedPatterns, serverName, header)
      ensures Present(header) ==> resultCache == old(resultCache)
      ensures !Present(header) && r.Ok? ==>
        resultCache == old(resultCache)[JavaStrings.ToLower(serverName) := r.value]
      ensures r.Err? ==> resultCache == old(resultCache)
    {
      var host := JavaStrings.ToLower(serverName);
      if Present(header) {
        return Ok(header.value);
      }
      var siteCode: Option<string>;
      if host in resultCache {
        siteCode := Some(resultCache[host]);
      } else {
        siteCode := ComputeSiteCode(cachedRules, sortedPatterns, host);
        if siteCode.Some? {
          resultCache := resultCache[host := siteCode.value];
        }
      }
      if siteCode.None? {
        return Err(UnknownTenant(UnknownDomainPrefix + host));
      }
      r := Ok(siteCode.value);
    }

    /** The result cache may drop an entry at any time (size bound or idle expiry). */
    method Expire(host: string)
      requires Valid()
      modifies this`resultCache
      ensures Valid()
      ensures resultCache == old(resultCache) - {host}
    {
      resultCache := resultCache - {host};
    }
  }

  // ------------------------------------------------------------ properties

  /** A non-blank override header is the answer, whatever the host and the rules. */
  lemma HeaderOverrideWins(rules: map<string, string>, patterns: seq<string>, serverName: string, header: Option<string>)
    requires Present(header)
    ensures Resolution(rules, patterns, serverName, header) == Ok(header.value)
  {
  }

  /** A stored exact host wins over every wildcard. */
  lemma ExactRuleWins(rules: map<string, string>, patterns: seq<string>, serverName: string, header: Option<string>)
    requires !Present(header)
    requires JavaStrings.ToLower(serverName) in rules
    ensures Resolution(rules, patterns, serverName, header) == Ok(rules[JavaStrings.ToLower(serverName)])
  {
  }

  /** Without an exact rule, the answer is the rule of the first matching wildcard in the list. */
  lemma {:induction false} FirstWildcardWins(rules: map<string, string>, patterns: seq<string>, host: string, i: nat)
    requires host !in rules
    requires i < |patterns| && WildMatch(patterns[i], host) && patterns[i] in rules
    requires forall j :: 0 <= j < i ==> !WildMatch(patterns[j], host)
    ensures ComputeSiteCode(rules, patterns, host) == Some(rules[patterns[i]])
  {
    assert FirstWildcardFrom(patterns, host, 0) == Some(i);
  }

  /** With neither an exact rule nor a matching wildcard the host is unknown. */
  lemma NoRuleUnknown(rules: map<string, string>, patterns: seq<string>, host: string)
    requires host !in rules
    requires forall j :: 0 <= j < |patterns| ==> !WildMatch(patterns[j], host)
    ensures ComputeSiteCode(rules, patterns, host) == None
  {
  }

  /** Hosts that differ only in letter case resolve alike. */
  lemma CaseInsensitiveHost(rules: map<string, string>, patterns: seq<string>, a: string, b: string, header: Option<string>)
    requires JavaStrings.EqualsIgnoreCase(a, b)
    ensures Resolution(rules, patterns, a, header) == Resolution(rules, patterns, b, header)
  {
  }

  /** The unknown-tenant message names the lower-cased host. */
  lemma UnknownNamesHost(rules: map<string, string>, patterns: seq<string>, serverName: string, header: Option<string>)
    requires Resolution(rules, patterns, serverName, header).Err?
    ensures JavaStrings.Contains(Resolution(rules, patterns, serverName, header).error.message,
                                 JavaStrings.ToLower(serverName))
  {
    var host := JavaStrings.ToLower(serverName);
    var msg := UnknownDomainPrefix + host;
    assert msg[|UnknownDomainPrefix|..|UnknownDomainPrefix| + |host|] == host;
    assert JavaStrings.OccursAt(msg, host, |UnknownDomainPrefix|);
  }

  /**
   * After a refresh from a store with distinct patterns, every stored
   * pattern maps to its site code, and the pattern list holds the stored
   * patterns in priority order.
   */
  lemma {:induction false} RefreshedRulesReflectStore(stored: seq<TenantRecord>)
    requires DistinctPatterns(stored)
    ensures forall t :: t in stored ==>
      t.domainPattern in RulesOf(SortByPriority(stored)) && RulesOf(SortByPriority(stored))[t.domainPattern] == t.siteCode
    ensures multiset(PatternsOf(SortByPriority(stored))) == multiset(PatternsOf(stored))
    ensures forall p :: p in RulesOf(SortByPriority(stored)) ==> exists t :: t in stored && t.domainPattern == p
  {
    var sorted := SortByPriority(stored);
    SortByPriorityCorrect(stored);
    DistinctAfterPermutation(stored, sorted);
    RulesOfMaps(sorted);
    forall t | t in stored
      ensures t.domainPattern in RulesOf(sorted) && RulesOf(sorted)[t.domainPattern] == t.siteCode
    {
      assert t in multiset(sorted);
      var i :| 0 <= i < |sorted| && sorted[i] == t;
    }
    forall p | p in RulesOf(sorted) ensures exists t :: t in stored && t.domainPattern == p {
      var i :| 0 <= i < |sorted| && sorted[i].domainPattern == p;
      assert sorted[i] in multiset(stored);
    }
    PatternsOfPermutation(stored, sorted);
  }

  /** Taking the same element out of two permutations leaves permutations. */
  lemma RemoveFromPermutation(a: seq<TenantRecord>, b: seq<TenantRecord>, k: nat)
    requires multiset(a) == multiset(b) && a != [] && k < |b| && b[k] == a[0]
    ensures multiset(a[1..]) == multiset(b[..k] + b[k + 1..])
  {
    var x := a[0];
    var pre, post := b[..k], b[k + 1..];
    assert b == pre + [x] + post;
    assert a == [x] + a[1..];
    assert multiset(b) == multiset(pre) + multiset([x]) + multiset(post);
    assert multiset(a) == multiset([x]) + multiset(a[1..]);
    assert multiset(pre + post) == multiset(pre) + multiset(post);
    forall o ensures multiset(a[1..])[o] == multiset(pre + post)[o] {
      assert multiset(a)[o] == multiset(b)[o];
    }
  }

  lemma PatternsOfConcat(x: seq<TenantRecord>, y: seq<TenantRecord>)
    ensures PatternsOf(x + y) == PatternsOf(x) + PatternsOf(y)
  {
  }

  lemma {:induction false} PatternsOfPermutation(a: seq<TenantRecord>, b: seq<TenantRecord>)
    requires multiset(a) == multiset(b)
    ensures multiset(PatternsOf(a)) == multiset(PatternsOf(b))
    decreases |a|
  {
    if a != [] {
      var x := a[0];
      assert x in multiset(b);
      var k :| 0 <= k < |b| && b[k] == x;
      var pre, post := b[..k], b[k + 1..];
      assert b == pre + [x] + post;
      var b' := pre + post;
      RemoveFromPermutation(a, b, k);
      PatternsOfPermutation(a[1..], b');
      PatternsOfConcat([x], a[1..]);
      assert [x] + a[1..] == a;
      PatternsOfConcat(pre + [x], post);
      PatternsOfConcat(pre, [x]);
      PatternsOfConcat(pre, post);
      assert PatternsOf([x]) == [x.domainPattern];
    }
  }

  /** A permutation of a list with distinct patterns has distinct patterns. */
  lemma DistinctAfterPermutation(a: seq<TenantRecord>, b: seq<TenantRecord>)
    requires DistinctPatterns(a)
    requires multiset(a) == multiset(b)
    ensures DistinctPatterns(b)
  {
    forall i, j | 0 <= i < j < |b| ensures b[i].domainPattern != b[j].domainPattern {
      if b[i].domainPattern == b[j].domainPattern {
        assert b[i] in multiset(a) && b[j] in multiset(a);
        var i' :| 0 <= i' < |a| && a[i'] == b[i];
        var j' :| 0 <= j' < |a| && a[j'] == b[j];
        assert i' == j';
        TwoPositionsCount(b, i, j);
        OnePositionCount(a, i');
      }
    }
  }

  lemma TwoPositionsCount(s: seq<TenantRecord>, i: nat, j: nat)
    requires i < j < |s| && s[i] == s[j]
    ensures multiset(s)[s[i]] >= 2
  {
    assert s == s[..i] + [s[i]] + s[i + 1..j] + [s[j]] + s[j + 1..];
  }

  lemma OnePositionCount(s: seq<TenantRecord>, i: nat)
    requires i < |s| && DistinctPatterns(s)
    ensures multiset(s)[s[i]] == 1
  {
    var x := s[i];
    assert s == s[..i] + [x] + s[i + 1..];
    assert x !in s[..i] by {
      forall k | 0 <= k < i ensures s[..i][k] != x { assert s[k].domainPattern != x.domainPattern; }
    }
    assert x !in s[i + 1..] by {
      forall k | i < k < |s| ensures s[k] != x { assert s[k].domainPattern != x.domainPattern; }
    }
  }

  // ------------------------------------------------------------ the three-rule example

  function ExampleTenant(pattern: string, site: string): TenantRecord {
    TenantRecord(None, site, pattern, "", None, DefaultTheme, false, false)
  }

  /** The store of the resolver's example: the apex, a wildcard and one exact sub-domain. */
  function ExampleStore(): seq<TenantRecord> {
    [ExampleTenant("mingchico.com", "SITE_MAIN"),
     ExampleTenant("*.mingchico.com", "SITE_SUB"),
     ExampleTenant("admin.mingchico.com", "SITE_ADMIN")]
  }

  /** Sorting an exact pattern, a wildcard and a longer exact pattern. */
  lemma SortThree(a: TenantRecord, b: TenantRecord, c: TenantRecord)
    requires !IsWildcard(a.domainPattern) && IsWildcard(b.domainPattern) && !IsWildcard(c.domainPattern)
    requires |a.domainPattern| < |c.domainPattern|
    ensures SortByPriority([a, b, c]) == [c, a, b]
  {
    assert [a, b, c][1..] == [b, c] && [b, c][1..] == [c] && [c][1..] == [];
    assert SortByPriority([c]) == [c];
    assert Insert(b, [c]) == [c] + Insert(b, []);
    assert SortByPriority([b, c]) == [c, b];
    assert Insert(a, [c, b]) == [c] + Insert(a, [b]);
    assert Insert(a, [b]) == [a, b];
  }

  lemma RulesOfThree(a: TenantRecord, b: TenantRecord, c: TenantRecord)
    ensures RulesOf([a, b, c])
            == map[a.domainPattern := a.siteCode][b.domainPattern := b.siteCode][c.domainPattern := c.siteCode]
  {
    assert [a, b, c][..2] == [a, b];
    assert [a, b][..1] == [a];
    assert [a][..0] == [];
    assert RulesOf([a]) == map[a.domainPattern := a.siteCode];
    assert RulesOf([a, b]) == RulesOf([a])[b.domainPattern := b.siteCode];
  }

  /** Refreshing from the example puts the exact patterns first, the longer one ahead. */
  lemma ExampleOrder()
    ensures SortByPriority(ExampleStore()) == [ExampleStore()[2], ExampleStore()[0], ExampleStore()[1]]
  {
    var s := ExampleStore();
    assert s == [s[0], s[1], s[2]];
    assert IsWildcard(s[1].domainPattern) by { assert s[1].domainPattern[0] == '*'; }
    StarFree("mingchico.com");
    StarFree("admin.mingchico.com");
    SortThree(s[0], s[1], s[2]);
  }

  /** A literal without '*' (checked character by character). */
  lemma StarFree(p: string)
    requires forall i :: 0 <= i < |p| ==> p[i] != '*'
    ensures !IsWildcard(p)
  {
  }

  const ExampleRuleMap: map<string, string> :=
    map["admin.mingchico.com" := "SITE_ADMIN", "mingchico.com" := "SITE_MAIN", "*.mingchico.com" := "SITE_SUB"]

  const ExamplePatterns: seq<string> := ["admin.mingchico.com", "mingchico.com", "*.mingchico.com"]

  /** The rule map and pattern list of the example after a refresh. */
  lemma ExampleRefresh()
    ensures RulesOf(SortByPriority(ExampleStore())) == ExampleRuleMap
    ensures PatternsOf(SortByPriority(ExampleStore())) == ExamplePatterns
  {
    ExampleOrder();
    var s := ExampleStore();
    RulesOfThree(s[2], s[0], s[1]);
  }

  lemma LowerKeeps(s: string)
    requires forall i :: 0 <= i < |s| ==> !('A' <= s[i] <= 'Z')
    ensures JavaStrings.ToLower(s) == s
  {
  }

  /** A pattern without '*' is never a wildcard match. */
  lemma NoExactMatch(p: string, host: string)
    requires forall i :: 0 <= i < |p| ==> p[i] != '*'
    ensures !WildMatch(p, host)
  {
  }

  /** The example's wildcard matches a one-label sub-domain. */
  lemma ShopMatchesWildcard(p: string, host: string)
    requires p == "*.mingchico.com" && host == "shop.mingchico.com"
    ensures WildMatch(p, host)
  {
    assert host == JavaStrings.Join(["shop", "mingchico", "com"], '.');
    AntMatch.TokensOfJoinPlain(["shop", "mingchico", "com"], '.');
    assert p == JavaStrings.Join(["*", "mingchico", "com"], '.');
    AntMatch.TokensOfJoinPlain(["*", "mingchico", "com"], '.');
    AntMatch.StarPrefixMatch(["mingchico", "com"], ["shop", "mingchico", "com"]);
    assert ["*", "mingchico", "com"] == ["*"] + ["mingchico", "com"];
    assert p[0] == '*';
  }

  /** The exact sub-domain of the example beats the wildcard that also matches it. */
  lemma ExampleExact()
    ensures Resolution(ExampleRuleMap, ExamplePatterns, "admin.mingchico.com", None) == Ok("SITE_ADMIN")
  {
    LowerKeeps("admin.mingchico.com");
  }
}
