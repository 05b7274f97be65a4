/**
 * The part of Spring's AntPathMatcher that the pipeline relies on, with the
 * separator as a parameter ('.' for host names, '/' for request paths):
 * literal segments, '*' for any characters inside one segment, and "**" for
 * zero or more whole segments. Paths are cut into non-empty tokens, and a
 * pattern and a path must agree on whether they start with the separator.
 */
module AntMatch {
  import JavaStrings

  /** The non-empty pieces, in order. */
  function NonEmpty(ps: seq<string>): (r: seq<string>)
    ensures |r| <= |ps|
    ensures forall k :: 0 <= k < |r| ==> r[k] != "" && r[k] in ps
  {
    if ps == [] then [] else (if ps[0] == "" then [] else [ps[0]]) + NonEmpty(ps[1..])
  }

  /** Tokenisation with empty tokens dropped. */
  function Tokens(s: string, sep: char): (r: seq<string>)
    ensures forall k :: 0 <= k < |r| ==> r[k] != "" && sep !in r[k]
  {
    NonEmpty(JavaStrings.RawSplit(s, sep))
  }

  /** One pattern segment against one path segment; '*' matches any run of characters. */
  function SegMatch(p: string, s: string): bool
    decreases |p| + |s|
  {
    if p == [] then s == []
    else if p[0] == '*' then SegMatch(p[1..], s) || (s != [] && SegMatch(p, s[1..]))
    else s != [] && s[0] == p[0] && SegMatch(p[1..], s[1..])
  }

  /** Pattern segments against path segments; "**" matches zero or more segments. */
  function PathMatch(ps: seq<string>, ss: seq<string>): bool
    decreases |ps| + |ss|
  {
    if ps == [] then ss == []
    else if ps[0] == "**" then PathMatch(ps[1..], ss) || (ss != [] && PathMatch(ps, ss[1..]))
    else ss != [] && SegMatch(ps[0], ss[0]) && PathMatch(ps[1..], ss[1..])
  }

  predicate LeadingSep(s: string, sep: char) {
    |s| > 0 && s[0] == sep
  }

  /** AntPathMatcher.match restricted to literal, '*' and "**" patterns. */
  predicate Match(pattern: string, path: string, sep: char) {
    LeadingSep(pattern, sep) == LeadingSep(path, sep)
    && PathMatch(Tokens(pattern, sep), Tokens(path, sep))
  }

  /** A pattern segment without '*' matches exactly itself. */
  lemma {:induction false} LiteralSegMatch(p: string, s: string)
    requires '*' !in p
    ensures SegMatch(p, s) <==> p == s
  {
    if p != [] && s != [] {
      LiteralSegMatch(p[1..], s[1..]);
      assert p == [p[0]] + p[1..];
      assert s == [s[0]] + s[1..];
    }
  }

  /** The segment "*" matches every segment. */
  lemma {:induction false} StarMatchesAll(s: string)
    ensures SegMatch("*", s)
  {
    assert SegMatch("*"[1..], []);
    if s != [] {
      StarMatchesAll(s[1..]);
    }
  }

  /** Every pattern segment matches itself (a '*' can stand for a literal '*'). */
  lemma {:induction false} SegMatchSelf(p: string)
    ensures SegMatch(p, p)
  {
    if p != [] {
      SegMatchSelf(p[1..]);
      if p[0] == '*' {
        assert SegMatch(p[1..], p[1..]);
        SegMatchStarOne(p);
      }
    }
  }

  /** A leading '*' may swallow one character and then match the rest literally. */
  lemma SegMatchStarOne(p: string)
    requires p != [] && p[0] == '*'
    requires SegMatch(p[1..], p[1..])
    ensures SegMatch(p, p)
  {
    assert SegMatch(p[1..], p[1..]);
    assert SegMatch(p[1..], p[1..]) ==> SegMatch(p, p[1..]);
  }

  /** Pattern segments free of '*' match exactly the same segments. */
  lemma {:induction false} LiteralPathMatch(ps: seq<string>, ss: seq<string>)
    requires forall k :: 0 <= k < |ps| ==> '*' !in ps[k]
    ensures PathMatch(ps, ss) <==> ps == ss
  {
    if ps != [] {
      assert ps[0] != "**" by { assert '*' !in ps[0]; }
      if ss != [] {
        LiteralSegMatch(ps[0], ss[0]);
        LiteralPathMatch(ps[1..], ss[1..]);
        assert ps == [ps[0]] + ps[1..];
        assert ss == [ss[0]] + ss[1..];
      }
    }
  }

  /** A pattern with no '*' at all matches exactly the paths with the same tokens and leading separator. */
  lemma LiteralMatch(pattern: string, path: string, sep: char)
    requires '*' !in pattern
    ensures Match(pattern, path, sep)
            <==> LeadingSep(pattern, sep) == LeadingSep(path, sep) && Tokens(pattern, sep) == Tokens(path, sep)
  {
    var ps := Tokens(pattern, sep);
    forall k | 0 <= k < |ps| ensures '*' !in ps[k] {
      TokenInside(pattern, sep, ps[k]);
    }
    LiteralPathMatch(ps, Tokens(path, sep));
  }

  /** Characters of a token come from the string it was cut from. */
  lemma TokenInside(s: string, sep: char, t: string)
    requires t in Tokens(s, sep)
    ensures forall ch :: ch in t ==> ch in s
  {
    RawSplitInside(s, sep);
  }

  lemma {:induction false} RawSplitInside(s: string, sep: char)
    ensures forall t, ch :: t in JavaStrings.RawSplit(s, sep) && ch in t ==> ch in s
  {
    if s != [] {
      RawSplitInside(s[1..], sep);
      var rest := JavaStrings.RawSplit(s[1..], sep);
      assert forall ch :: ch in s[1..] ==> ch in s;
      if s[0] != sep {
        forall ch | ch in [s[0]] + rest[0] ensures ch in s {
          if ch != s[0] { assert ch in rest[0]; }
        }
      }
    }
  }

  /** Every path matches itself read as a pattern. */
  lemma {:induction false} PathMatchSelf(ss: seq<string>)
    ensures PathMatch(ss, ss)
  {
    if ss != [] {
      PathMatchSelf(ss[1..]);
      if ss[0] == "**" {
        assert PathMatch(ss, ss[1..]) by {
          PathMatchSkipNone(ss, ss[1..]);
        }
      } else {
        SegMatchSelf(ss[0]);
      }
    }
  }

  /** "**" followed by a matching rest also matches after consuming no segment. */
  lemma PathMatchSkipNone(ps: seq<string>, ss: seq<string>)
    requires ps != [] && ps[0] == "**" && PathMatch(ps[1..], ss)
    ensures PathMatch(ps, ss)
  {
  }

  /** "**" matches any run of segments. */
  lemma {:induction false} DoubleStarMatchesAll(ss: seq<string>)
    ensures PathMatch(["**"], ss)
  {
    assert PathMatch(["**"][1..], []);
    if ss != [] {
      DoubleStarMatchesAll(ss[1..]);
    }
  }

  /**
   * Literal segments followed by a "**" segment match exactly the paths
   * whose segments start with those literal ones.
   */
  lemma {:induction false} PrefixPatternMatch(ps: seq<string>, ss: seq<string>)
    requires forall k :: 0 <= k < |ps| ==> '*' !in ps[k]
    ensures PathMatch(ps + ["**"], ss) <==> ps <= ss
  {
    if ps == [] {
      DoubleStarMatchesAll(ss);
      assert ps + ["**"] == ["**"];
    } else {
      assert (ps + ["**"])[0] == ps[0] && (ps + ["**"])[1..] == ps[1..] + ["**"];
      assert ps[0] != "**" by { assert '*' !in ps[0]; }
      if ss != [] {
        LiteralSegMatch(ps[0], ss[0]);
        PrefixPatternMatch(ps[1..], ss[1..]);
        assert ps <= ss <==> ps[0] == ss[0] && ps[1..] <= ss[1..];
      }
    }
  }

  /**
   * A leading "*" segment before literal segments (the "*.example.com" form)
   * matches exactly one extra leading segment.
   */
  lemma StarPrefixMatch(ds: seq<string>, ss: seq<string>)
    requires forall k :: 0 <= k < |ds| ==> '*' !in ds[k]
    ensures PathMatch(["*"] + ds, ss) <==> |ss| >= 1 && ss[1..] == ds
  {
    assert (["*"] + ds)[0] == "*" && (["*"] + ds)[1..] == ds;
    if ss != [] {
      StarMatchesAll(ss[0]);
      LiteralPathMatch(ds, ss[1..]);
    }
  }

  /** The tokens of the segments joined by the separator are the segments. */
  lemma TokensOfJoin(segs: seq<string>, sep: char)
    requires forall k :: 0 <= k < |segs| ==> segs[k] != "" && sep !in segs[k]
    ensures Tokens(JavaStrings.Join([""] + segs, sep), sep) == segs
    ensures |segs| == 0 || LeadingSep(JavaStrings.Join([""] + segs, sep), sep)
  {
    var pieces := [""] + segs;
    JavaStrings.RawSplitJoin(pieces, sep);
    NonEmptyKeeps(segs);
    assert NonEmpty(pieces) == NonEmpty(segs) by {
      assert pieces[1..] == segs;
    }
  }

  /** The tokens of non-empty segments joined by the separator, with no leading separator, are the segments. */
  lemma TokensOfJoinPlain(segs: seq<string>, sep: char)
    requires |segs| >= 1
    requires forall k :: 0 <= k < |segs| ==> segs[k] != "" && sep !in segs[k]
    ensures Tokens(JavaStrings.Join(segs, sep), sep) == segs
    ensures !LeadingSep(JavaStrings.Join(segs, sep), sep)
  {
    JavaStrings.RawSplitJoin(segs, sep);
    NonEmptyKeeps(segs);
    JoinStartsWithFirst(segs, sep);
  }

  lemma JoinStartsWithFirst(segs: seq<string>, sep: char)
    requires |segs| >= 1
    ensures segs[0] <= JavaStrings.Join(segs, sep)
  {
  }

  /** Non-empty pieces are all kept, in order. */
  lemma {:induction false} NonEmptyKeeps(segs: seq<string>)
    requires forall k :: 0 <= k < |segs| ==> segs[k] != ""
    ensures NonEmpty(segs) == segs
  {
    if segs != [] {
      NonEmptyKeeps(segs[1..]);
      assert [segs[0]] + segs[1..] == segs;
    }
  }
}
