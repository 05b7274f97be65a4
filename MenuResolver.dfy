/**
 * Menu resolution: the site's menus in the repository's order (parent id,
 * then display order), and the longest URL pattern that matches the request
 * URI, the earliest one winning a tie.
 */
module MenuResolution {
  import opened Wrappers
  import JavaStrings
  import AntMatch
  import opened MenuDomain

  // ---------------------------------------------------------------- repository order

  /** Parent id ascending with a missing parent first, as the database sorts NULL in ascending order. */
  predicate ParentBefore(a: MenuRecord, b: MenuRecord) {
    (a.parentId.None? && b.parentId.Some?)
    || (a.parentId.Some? && b.parentId.Some? && a.parentId.value < b.parentId.value)
  }

  /** ORDER BY parentId ASC, displayOrder ASC: `a` may come before `b`. */
  predicate OrderedPair(a: MenuRecord, b: MenuRecord) {
    ParentBefore(a, b) || (a.parentId == b.parentId && a.displayOrder <= b.displayOrder)
  }

  predicate Sorted(ms: seq<MenuRecord>) {
    forall i, j :: 0 <= i < j < |ms| ==> OrderedPair(ms[i], ms[j])
  }

  /** The order is total and transitive. */
  lemma OrderIsTotal(a: MenuRecord, b: MenuRecord, c: MenuRecord)
    ensures OrderedPair(a, b) || OrderedPair(b, a)
    ensures OrderedPair(a, b) && OrderedPair(b, c) ==> OrderedPair(a, c)
  {
  }

  /** Puts `x` before the first element it may precede, so equal keys keep their order. */
  function Insert(x: MenuRecord, ms: seq<MenuRecord>): (r: seq<MenuRecord>)
    ensures multiset(r) == multiset(ms) + multiset{x}
  {
    if ms == [] || OrderedPair(x, ms[0]) then [x] + ms
    else
      assert ms == [ms[0]] + ms[1..];
      [ms[0]] + Insert(x, ms[1..])
  }

  /** A record that may precede every record of a sorted list can go in front. */
  lemma SortedCons(x: MenuRecord, ms: seq<MenuRecord>)
    requires Sorted(ms) && forall m :: m in ms ==> OrderedPair(x, m)
    ensures Sorted([x] + ms)
  {
    var r := [x] + ms;
    forall i, j | 0 <= i < j < |r| ensures OrderedPair(r[i], r[j]) {
      assert r[j] == ms[j - 1] && r[j] in ms;
      if i > 0 {
        assert r[i] == ms[i - 1];
      }
    }
  }

  /** An inserted list holds the new record and the old ones, nothing else. */
  lemma InsertMembers(x: MenuRecord, ms: seq<MenuRecord>)
    ensures forall m :: m in Insert(x, ms) ==> m == x || m in ms
  {
    forall m | m in Insert(x, ms) ensures m == x || m in ms {
      assert m in multiset(Insert(x, ms));
    }
  }

  /** Inserting into a sorted list keeps it sorted. */
  lemma {:induction false} InsertSorted(x: MenuRecord, ms: seq<MenuRecord>)
    requires Sorted(ms)
    ensures Sorted(Insert(x, ms))
  {
    if ms == [] || OrderedPair(x, ms[0]) {
      assert Insert(x, ms) == [x] + ms;
      forall m | m in ms ensures OrderedPair(x, m) {
        var k :| 0 <= k < |ms| && ms[k] == m;
        OrderIsTotal(x, ms[0], ms[k]);
      }
      SortedCons(x, ms);
    } else {
      var tail := ms[1..];
      assert Sorted(tail) by {
        assert forall k :: 0 <= k < |tail| ==> tail[k] == ms[k + 1];
      }
      InsertSorted(x, tail);
      var rest := Insert(x, tail);
      assert Insert(x, ms) == [ms[0]] + rest;
      InsertMembers(x, tail);
      OrderIsTotal(x, ms[0], x);
      forall m | m in rest ensures OrderedPair(ms[0], m) {
        if m != x {
          var k :| 0 <= k < |tail| && tail[k] == m;
          assert ms[k + 1] == m;
        }
      }
      SortedCons(ms[0], rest);
    }
  }

  /** A stable insertion sort by parent id, then display order. */
  function SortByParentAndOrder(ms: seq<MenuRecord>): (r: seq<MenuRecord>)
    ensures multiset(r) == multiset(ms)
  {
    if ms == [] then []
    else
      assert ms == [ms[0]] + ms[1..];
      Insert(ms[0], SortByParentAndOrder(ms[1..]))
  }

  /** The sort puts every pair in order. */
  lemma {:induction false} SortSorted(ms: seq<MenuRecord>)
    ensures Sorted(SortByParentAndOrder(ms))
  {
    if ms != [] {
      SortSorted(ms[1..]);
      InsertSorted(ms[0], SortByParentAndOrder(ms[1..]));
    }
  }

  /** The stored rows of one site, in store order. */
  function OfSite(rows: seq<MenuRecord>, siteCode: string): (r: seq<MenuRecord>)
    ensures forall m :: m in r <==> m in rows && m.siteCode == siteCode
    ensures multiset(r) <= multiset(rows)
  {
    if rows == [] then []
    else
      assert rows == [rows[0]] + rows[1..];
      (if rows[0].siteCode == siteCode then [rows[0]] else []) + OfSite(rows[1..], siteCode)
  }

  /**
   * findAllBySiteCodeOrderByParentIdAscDisplayOrderAsc: exactly the site's
   * rows, each as often as stored, parent id then display order ascending.
   */
  function FindAllBySiteCodeOrdered(rows: seq<MenuRecord>, siteCode: string): (r: seq<MenuRecord>)
    ensures Sorted(r)
    ensures multiset(r) == multiset(OfSite(rows, siteCode))
    ensures forall m :: m in r <==> m in rows && m.siteCode == siteCode
  {
    var r := SortByParentAndOrder(OfSite(rows, siteCode));
    SortSorted(OfSite(rows, siteCode));
    assert forall m :: m in r <==> m in multiset(OfSite(rows, siteCode));
    r
  }

  // ---------------------------------------------------------------- longest match

  /** AntPathMatcher.match(menu.getUrlPattern(), requestUri). */
  predicate Matches(m: MenuRecord, uri: string) {
    AntMatch.Match(m.urlPattern, uri, '/')
  }

  /**
   * The filter on matching patterns followed by Stream.max on the pattern
   * length, which keeps the earlier of two equally long ones.
   */
  function Resolve(menus: seq<MenuRecord>, uri: string): (r: Option<MenuRecord>)
    ensures r.Some? ==> r.value in menus && Matches(r.value, uri)
  {
    if menus == [] then None
    else
      var best := Resolve(menus[..|menus| - 1], uri);
      var last := menus[|menus| - 1];
      if !Matches(last, uri) then best
      else if best.Some? && |best.value.urlPattern| >= |last.urlPattern| then best
      else Some(last)
  }

  /** There is no result exactly when no menu matches. */
  lemma {:induction false} ResolveNoneIff(menus: seq<MenuRecord>, uri: string)
    ensures Resolve(menus, uri).None? <==> forall k :: 0 <= k < |menus| ==> !Matches(menus[k], uri)
  {
    if menus != [] {
      var front := menus[..|menus| - 1];
      ResolveNoneIff(front, uri);
      assert forall k :: 0 <= k < |front| ==> menus[k] == front[k];
    }
  }

  /** No matching menu has a longer pattern than the result. */
  lemma {:induction false} ResolveLongest(menus: seq<MenuRecord>, uri: string, k: nat)
    requires k < |menus| && Matches(menus[k], uri)
    ensures Resolve(menus, uri).Some?
    ensures |menus[k].urlPattern| <= |Resolve(menus, uri).value.urlPattern|
  {
    var front := menus[..|menus| - 1];
    var best := Resolve(front, uri);
    var last := menus[|menus| - 1];
    if k < |front| {
      assert front[k] == menus[k];
      ResolveLongest(front, uri, k);
    }
    if !Matches(last, uri) || (best.Some? && |best.value.urlPattern| >= |last.urlPattern|) {
      assert Resolve(menus, uri) == best;
    } else {
      assert Resolve(menus, uri) == Some(last);
    }
  }

  /** Every menu before index `i` that matches has a pattern strictly shorter than `r`'s. */
  predicate ShorterBefore(menus: seq<MenuRecord>, uri: string, i: nat, r: MenuRecord)
    requires i <= |menus|
  {
    forall k :: 0 <= k < i && Matches(menus[k], uri) ==> |menus[k].urlPattern| < |r.urlPattern|
  }

  /** ShorterBefore over a prefix carries over to the whole list. */
  lemma ShorterBeforeExtends(menus: seq<MenuRecord>, uri: string, i: nat, r: MenuRecord)
    requires menus != [] && i <= |menus| - 1
    requires ShorterBefore(menus[..|menus| - 1], uri, i, r)
    ensures ShorterBefore(menus, uri, i, r)
  {
    var front := menus[..|menus| - 1];
    forall k | 0 <= k < i && Matches(menus[k], uri) ensures |menus[k].urlPattern| < |r.urlPattern| {
      assert front[k] == menus[k];
    }
  }

  /** A last menu longer than the front's result is longer than every earlier match. */
  lemma LastIsShorterBefore(menus: seq<MenuRecord>, uri: string)
    requires menus != []
    requires var best := Resolve(menus[..|menus| - 1], uri);
             best.None? || |best.value.urlPattern| < |menus[|menus| - 1].urlPattern|
    ensures ShorterBefore(menus, uri, |menus| - 1, menus[|menus| - 1])
  {
    var front := menus[..|menus| - 1];
    forall k | 0 <= k < |front| && Matches(menus[k], uri)
      ensures |menus[k].urlPattern| < |menus[|menus| - 1].urlPattern|
    {
      assert front[k] == menus[k];
      ResolveLongest(front, uri, k);
    }
  }

  /** The result is an occurrence with no equally long match before it: the earliest longest one wins. */
  lemma {:induction false} ResolveEarliest(menus: seq<MenuRecord>, uri: string)
    requires Resolve(menus, uri).Some?
    ensures exists i :: 0 <= i < |menus| && menus[i] == Resolve(menus, uri).value
                        && ShorterBefore(menus, uri, i, Resolve(menus, uri).value)
  {
    var front := menus[..|menus| - 1];
    var best := Resolve(front, uri);
    var last := menus[|menus| - 1];
    var r := Resolve(menus, uri).value;
    if !Matches(last, uri) || (best.Some? && |best.value.urlPattern| >= |last.urlPattern|) {
      assert best == Resolve(menus, uri);
      ResolveEarliest(front, uri);
      var i :| 0 <= i < |front| && front[i] == r && ShorterBefore(front, uri, i, r);
      ShorterBeforeExtends(menus, uri, i, r);
      assert menus[i] == r;
    } else {
      assert r == last;
      LastIsShorterBefore(menus, uri);
    }
  }

  /** MenuResolver.resolve: the site's menus are read straight from the repository. */
  function ResolveForSite(rows: seq<MenuRecord>, siteCode: string, uri: string): (r: Option<MenuRecord>)
    ensures r.Some? ==> r.value in rows && r.value.siteCode == siteCode && Matches(r.value, uri)
    ensures r.None? <==> forall m :: m in rows && m.siteCode == siteCode ==> !Matches(m, uri)
    ensures r.Some? ==> forall m :: m in rows && m.siteCode == siteCode && Matches(m, uri) ==>
                          |m.urlPattern| <= |r.value.urlPattern|
  {
    var menus := FindAllBySiteCodeOrdered(rows, siteCode);
    var r := Resolve(menus, uri);
    ResolveNoneIff(menus, uri);
    forall m | m in rows && m.siteCode == siteCode && Matches(m, uri)
      ensures r.Some? && |m.urlPattern| <= |r.value.urlPattern|
    {
      var k :| 0 <= k < |menus| && menus[k] == m;
      ResolveLongest(menus, uri, k);
    }
    r
  }

  /** Menus of other sites never change the outcome. */
  lemma OtherSitesIgnored(rows: seq<MenuRecord>, other: MenuRecord, siteCode: string, uri: string)
    requires other.siteCode != siteCode
    ensures ResolveForSite(rows + [other], siteCode, uri) == ResolveForSite(rows, siteCode, uri)
  {
    OfSiteAppendOther(rows, other, siteCode);
  }

  lemma {:induction false} OfSiteAppendOther(rows: seq<MenuRecord>, other: MenuRecord, siteCode: string)
    requires other.siteCode != siteCode
    ensures OfSite(rows + [other], siteCode) == OfSite(rows, siteCode)
  {
    if rows == [] {
      assert OfSite([other], siteCode) == OfSite([other][1..], siteCode);
    } else {
      assert (rows + [other])[0] == rows[0];
      assert (rows + [other])[1..] == rows[1..] + [other];
      OfSiteAppendOther(rows[1..], other, siteCode);
    }
  }

  // ---------------------------------------------------------------- patterns of the form "/a/b/**"

  /** Path segments that are literal: non-empty, free of '/' and '*'. */
  predicate LiteralSegments(segs: seq<string>) {
    forall k :: 0 <= k < |segs| ==> segs[k] != "" && '/' !in segs[k] && '*' !in segs[k]
  }

  /** The path "/s1/s2/..." made of the given segments. */
  function PathOf(segs: seq<string>): string {
    JavaStrings.Join([""] + segs, '/')
  }

  // A pattern of literal segments followed by a double star matches a path
  // exactly when those segments begin the path's segments.
  lemma {:induction false} UnderPrefix(ds: seq<string>, ss: seq<string>)
    requires LiteralSegments(ds) && LiteralSegments(ss) && ss != []
    ensures AntMatch.Match(PathOf(ds + ["**"]), PathOf(ss), '/') <==> ds <= ss
  {
    var ps := ds + ["**"];
    assert forall k :: 0 <= k < |ps| ==> ps[k] != "" && '/' !in ps[k] by {
      forall k | 0 <= k < |ps| ensures ps[k] != "" && '/' !in ps[k] {
        if k < |ds| { assert ps[k] == ds[k]; } else { assert ps[k] == "**"; }
      }
    }
    AntMatch.TokensOfJoin(ps, '/');
    AntMatch.TokensOfJoin(ss, '/');
    AntMatch.PrefixPatternMatch(ds, ss);
  }

  /** Of two menus the longer matching pattern wins, the first on a tie. */
  lemma ResolvePair(a: MenuRecord, b: MenuRecord, uri: string)
    ensures Matches(a, uri) && Matches(b, uri) ==>
      Resolve([a, b], uri) == if |a.urlPattern| >= |b.urlPattern| then Some(a) else Some(b)
    ensures Matches(a, uri) && !Matches(b, uri) ==> Resolve([a, b], uri) == Some(a)
    ensures !Matches(a, uri) && Matches(b, uri) ==> Resolve([a, b], uri) == Some(b)
  {
    assert [a, b][..1] == [a];
    assert [a][..0] == [];
  }

  lemma BoardPatternsOnNotice()
    ensures AntMatch.Match("/board/**", "/board/notice/1", '/')
    ensures AntMatch.Match("/board/notice/**", "/board/notice/1", '/')
  {
    BoardPaths();
    UnderPrefix(["board"], ["board", "notice", "1"]);
    UnderPrefix(["board", "notice"], ["board", "notice", "1"]);
  }

  lemma BoardPatternsOnFree()
    ensures AntMatch.Match("/board/**", "/board/free/1", '/')
    ensures !AntMatch.Match("/board/notice/**", "/board/free/1", '/')
  {
    BoardPaths();
    UnderPrefix(["board"], ["board", "free", "1"]);
    NotUnderOtherPrefix("board", "notice", "free", "1");
  }

  // A double-star pattern under /a/b does not match a path /a/c/d when b and c differ.
  lemma NotUnderOtherPrefix(a: string, b: string, c: string, d: string)
    requires LiteralSegments([a, b]) && LiteralSegments([a, c, d]) && b != c
    ensures !AntMatch.Match(PathOf([a, b] + ["**"]), PathOf([a, c, d]), '/')
  {
    UnderPrefix([a, b], [a, c, d]);
    assert [a, c, d][1] == c;
  }

  /** The patterns and paths of the board scenario, as joined segments. */
  lemma BoardPaths()
    ensures "/board/**" == PathOf(["board"] + ["**"])
    ensures "/board/notice/**" == PathOf(["board", "notice"] + ["**"])
    ensures "/board/notice/1" == PathOf(["board", "notice", "1"])
    ensures "/board/free/1" == PathOf(["board", "free", "1"])
  {
    assert ["board"] + ["**"] == ["board", "**"];
    PathOfTwo("board", "**");
    assert ["board", "notice"] + ["**"] == ["board", "notice", "**"];
    PathOfThree("board", "notice", "**");
    PathOfThree("board", "notice", "1");
    PathOfThree("board", "free", "1");
  }

  lemma PathOfTwo(a: string, b: string)
    ensures PathOf([a, b]) == "/" + a + "/" + b
  {
    JoinTail(a, [b]);
    JoinTail("", [a, b]);
  }

  lemma PathOfThree(a: string, b: string, c: string)
    ensures PathOf([a, b, c]) == "/" + a + "/" + b + "/" + c
  {
    JoinTail(b, [c]);
    JoinTail(a, [b, c]);
    JoinTail("", [a, b, c]);
  }

  // The board scenario: with a board home on "/board/**" and a notice board
  // on "/board/notice/**", in either order, a notice URI goes to the notice
  // board and any other board URI to the board home.
  lemma BoardScenario(home: MenuRecord, notice: MenuRecord)
    requires home.urlPattern == "/board/**" && notice.urlPattern == "/board/notice/**"
    ensures Resolve([home, notice], "/board/notice/1") == Some(notice)
    ensures Resolve([notice, home], "/board/notice/1") == Some(notice)
    ensures Resolve([home, notice], "/board/free/1") == Some(home)
    ensures Resolve([notice, home], "/board/free/1") == Some(home)
  {
    BoardPatternsOnNotice();
    BoardPatternsOnFree();
    ResolvePair(home, notice, "/board/notice/1");
    ResolvePair(notice, home, "/board/notice/1");
    ResolvePair(home, notice, "/board/free/1");
    ResolvePair(notice, home, "/board/free/1");
  }

  lemma JoinTail(first: string, rest: seq<string>)
    requires rest != []
    ensures JavaStrings.Join([first] + rest, '/') == first + "/" + JavaStrings.Join(rest, '/')
  {
    assert ([first] + rest)[1..] == rest;
  }
}
