/**
 * The parts of java.lang.String (and Spring's StringUtils.hasText) that the
 * request pipeline depends on. Whitespace follows Character.isWhitespace over
 * all of Unicode; case folding is restricted to the ASCII range.
 */
module JavaStrings {

  /**
   * Character.isWhitespace: the ASCII controls it names, and the Unicode
   * space, line and paragraph separators other than the non-breaking ones
   * (U+00A0, U+2007, U+202F).
   */
  predicate IsWhitespace(c: char) {
    c == ' ' || c == '\t' || c == '\n' || c == '\U{0B}' || c == '\U{0C}' || c == '\r'
    || ('\U{1C}' <= c <= '\U{1F}')
    || c == '\U{1680}' || ('\U{2000}' <= c <= '\U{2006}') || ('\U{2008}' <= c <= '\U{200A}')
    || c == '\U{2028}' || c == '\U{2029}' || c == '\U{205F}' || c == '\U{3000}'
  }

  /** StringUtils.hasText on a non-null string: some character is not whitespace. */
  function HasText(s: string): (r: bool)
    ensures r <==> exists i :: 0 <= i < |s| && !IsWhitespace(s[i])
  {
    if s == [] then false else !IsWhitespace(s[0]) || HasText(s[1..])
  }

  /** String.isBlank: the opposite of hasText. */
  predicate IsBlank(s: string) {
    !HasText(s)
  }

  // ---------------------------------------------------------------- trim

  /** String.trim strips characters up to and including U+0020. */
  predicate Trimmable(c: char) {
    c <= ' '
  }

  /** Index of the first character that trim keeps, or |s|. */
  function TrimStart(s: string): (i: nat)
    ensures i <= |s|
    ensures forall k :: 0 <= k < i ==> Trimmable(s[k])
    ensures i < |s| ==> !Trimmable(s[i])
  {
    if s == [] || !Trimmable(s[0]) then 0 else 1 + TrimStart(s[1..])
  }

  /** One past the last character that trim keeps, or 0. */
  function TrimEnd(s: string): (j: nat)
    ensures j <= |s|
    ensures forall k :: j <= k < |s| ==> Trimmable(s[k])
    ensures 0 < j ==> !Trimmable(s[j - 1])
  {
    if s == [] || !Trimmable(s[|s| - 1]) then |s| else TrimEnd(s[..|s| - 1])
  }

  /** String.trim. */
  function Trim(s: string): (r: string)
    ensures |r| <= |s|
    ensures r == [] || (!Trimmable(r[0]) && !Trimmable(r[|r| - 1]))
    ensures r == [] <==> forall k :: 0 <= k < |s| ==> Trimmable(s[k])
  {
    var i, j := TrimStart(s), TrimEnd(s);
    if i == |s| then [] else s[i..j]
  }

  /** A string with no trimmable character at either end is its own trim. */
  lemma TrimKeepsTrimmed(s: string)
    requires s == [] || (!Trimmable(s[0]) && !Trimmable(s[|s| - 1]))
    ensures Trim(s) == s
  {
  }

  /** trim is idempotent. */
  lemma TrimIdempotent(s: string)
    ensures Trim(Trim(s)) == Trim(s)
  {
    TrimKeepsTrimmed(Trim(s));
  }

  // ---------------------------------------------------------------- case

  /** Character.toLowerCase on ASCII letters. */
  function LowerChar(c: char): char {
    if 'A' <= c <= 'Z' then (c as int + 32) as char else c
  }

  /** String.toLowerCase on the ASCII range. */
  function ToLower(s: string): (r: string)
    ensures |r| == |s|
    ensures forall i :: 0 <= i < |s| ==> r[i] == LowerChar(s[i])
  {
    seq(|s|, i requires 0 <= i < |s| => LowerChar(s[i]))
  }

  /** Lower-casing a second time changes nothing. */
  lemma ToLowerIdempotent(s: string)
    ensures ToLower(ToLower(s)) == ToLower(s)
  {
  }

  /** String.equalsIgnoreCase on the ASCII range. */
  predicate EqualsIgnoreCase(a: string, b: string) {
    ToLower(a) == ToLower(b)
  }

  // ---------------------------------------------------------------- search

  /** String.startsWith. */
  predicate StartsWith(s: string, prefix: string) {
    prefix <= s
  }

  /** String.endsWith. */
  predicate EndsWith(s: string, suffix: string) {
    |suffix| <= |s| && s[|s| - |suffix|..] == suffix
  }

  /** Whether `t` occurs in `s` starting at index `i`. */
  predicate OccursAt(s: string, t: string, i: nat) {
    i + |t| <= |s| && s[i..i + |t|] == t
  }

  /** String.contains. */
  function Contains(s: string, t: string): (r: bool)
    ensures r <==> exists i: nat :: OccursAt(s, t, i)
  {
    if t <= s then
      assert OccursAt(s, t, 0);
      true
    else if s == [] then
      false
    else
      var r := Contains(s[1..], t);
      assert forall i: nat :: OccursAt(s[1..], t, i) <==> OccursAt(s, t, i + 1) by {
        forall i: nat ensures OccursAt(s[1..], t, i) <==> OccursAt(s, t, i + 1) {
          if i + |t| <= |s[1..]| {
            assert s[1..][i..i + |t|] == s[i + 1..i + 1 + |t|];
          }
        }
      }
      assert forall i: nat :: OccursAt(s, t, i) ==> i == 0 || OccursAt(s[1..], t, i - 1);
      r
  }

  // ---------------------------------------------------------------- split

  /** The pieces of `s` between occurrences of `c`, empty pieces included. */
  function RawSplit(s: string, c: char): (r: seq<string>)
    ensures |r| >= 1
    ensures forall k :: 0 <= k < |r| ==> c !in r[k]
  {
    if s == [] then [""]
    else
      var rest := RawSplit(s[1..], c);
      if s[0] == c then [""] + rest else [[s[0]] + rest[0]] + rest[1..]
  }

  /** The inverse of RawSplit: the pieces with `c` between consecutive ones. */
  function Join(pieces: seq<string>, c: char): string
    requires |pieces| >= 1
  {
    if |pieces| == 1 then pieces[0] else pieces[0] + [c] + Join(pieces[1..], c)
  }

  /** Splitting and joining again gives back the string. */
  lemma {:induction false} JoinRawSplit(s: string, c: char)
    ensures Join(RawSplit(s, c), c) == s
  {
    if s != [] {
      JoinRawSplit(s[1..], c);
      var rest := RawSplit(s[1..], c);
      if s[0] != c {
        if |rest| == 1 {
        } else {
          assert ([s[0]] + rest[0]) + [c] + Join(rest[1..], c) == [s[0]] + (rest[0] + [c] + Join(rest[1..], c));
        }
      }
    }
  }

  /** Joining pieces that do not contain `c` and splitting again gives back the pieces. */
  lemma {:induction false} RawSplitJoin(pieces: seq<string>, c: char)
    requires |pieces| >= 1
    requires forall k :: 0 <= k < |pieces| ==> c !in pieces[k]
    ensures RawSplit(Join(pieces, c), c) == pieces
  {
    if |pieces| == 1 {
      RawSplitOfPiece(pieces[0], c);
    } else {
      RawSplitJoin(pieces[1..], c);
      RawSplitPrefix(pieces[0], c, Join(pieces[1..], c));
    }
  }

  /** A string without `c` splits into itself. */
  lemma {:induction false} RawSplitOfPiece(p: string, c: char)
    requires c !in p
    ensures RawSplit(p, c) == [p]
  {
    if p != [] {
      RawSplitOfPiece(p[1..], c);
      assert [p[0]] + p[1..] == p;
    }
  }

  /** A piece followed by `c` and a tail splits into the piece and the tail's pieces. */
  lemma {:induction false} RawSplitPrefix(p: string, c: char, tail: string)
    requires c !in p
    ensures RawSplit(p + [c] + tail, c) == [p] + RawSplit(tail, c)
  {
    if p == [] {
      assert p + [c] + tail == [c] + tail;
      assert ([c] + tail)[1..] == tail;
    } else {
      RawSplitPrefix(p[1..], c, tail);
      assert (p + [c] + tail)[1..] == p[1..] + [c] + tail;
      assert [p[0]] + p[1..] == p;
    }
  }

  /** Drops the empty pieces at the end, as String.split with limit 0 does. */
  function DropTrailingEmpty(pieces: seq<string>): (r: seq<string>)
    ensures r <= pieces
    ensures r == [] || r[|r| - 1] != ""
    ensures forall k :: |r| <= k < |pieces| ==> pieces[k] == ""
  {
    if pieces == [] then []
    else if pieces[|pieces| - 1] == "" then DropTrailingEmpty(pieces[..|pieces| - 1])
    else pieces
  }

  /**
   * String.split with a one-character separator: a string without the
   * separator is returned whole (even when empty), otherwise the pieces with
   * trailing empty ones removed.
   */
  function Split(s: string, c: char): seq<string> {
    if c !in s then [s] else DropTrailingEmpty(RawSplit(s, c))
  }

  /** Every piece of RawSplit is empty iff the string consists of separators only. */
  lemma {:induction false} RawSplitAllEmpty(s: string, c: char)
    ensures (forall k :: 0 <= k < |RawSplit(s, c)| ==> RawSplit(s, c)[k] == "")
            <==> (forall i :: 0 <= i < |s| ==> s[i] == c)
  {
    if s != [] {
      RawSplitAllEmpty(s[1..], c);
      var rest := RawSplit(s[1..], c);
      if s[0] == c {
        var r := RawSplit(s, c);
        assert r == [""] + rest;
        assert (forall k :: 0 <= k < |r| ==> r[k] == "") <==> (forall k :: 0 <= k < |rest| ==> rest[k] == "") by {
          assert r[0] == "";
          assert forall k :: 0 < k < |r| ==> r[k] == rest[k - 1];
          assert forall k :: 0 <= k < |rest| ==> rest[k] == r[k + 1];
        }
        assert (forall i :: 0 <= i < |s| ==> s[i] == c) <==> (forall i :: 0 <= i < |s[1..]| ==> s[1..][i] == c) by {
          assert forall i :: 1 <= i < |s| ==> s[i] == s[1..][i - 1];
        }
      } else {
        assert RawSplit(s, c)[0] != "";
      }
    }
  }

  /**
   * String.split yields an empty array exactly when the string is non-empty
   * and made of separators only (",", ",,", ...); indexing [0] then throws.
   */
  lemma SplitEmptyIff(s: string, c: char)
    ensures Split(s, c) == [] <==> (|s| > 0 && forall i :: 0 <= i < |s| ==> s[i] == c)
  {
    RawSplitAllEmpty(s, c);
    if c in s {
      var r := RawSplit(s, c);
      var d := DropTrailingEmpty(r);
      if d == [] {
        assert forall k :: 0 <= k < |r| ==> r[k] == "";
      } else {
        assert d[|d| - 1] == r[|d| - 1] != "";
      }
    }
  }

  /** The first piece of a split is the text before the first separator. */
  lemma {:induction false} SplitFirst(s: string, c: char)
    requires Split(s, c) != []
    ensures c !in Split(s, c)[0]
    ensures Split(s, c)[0] <= s
    ensures |Split(s, c)[0]| < |s| ==> s[|Split(s, c)[0]|] == c
  {
    RawSplitFirst(s, c);
  }

  /** RawSplit's first piece is the prefix before the first separator. */
  lemma {:induction false} RawSplitFirst(s: string, c: char)
    ensures RawSplit(s, c)[0] <= s
    ensures |RawSplit(s, c)[0]| < |s| ==> s[|RawSplit(s, c)[0]|] == c
  {
    if s != [] && s[0] != c {
      RawSplitFirst(s[1..], c);
      var rest := RawSplit(s[1..], c);
      assert [s[0]] + rest[0] <= [s[0]] + s[1..];
      assert [s[0]] + s[1..] == s;
    }
  }

  // ---------------------------------------------------------------- keys

  /** a + sep + b: a compound cache key of two parts around a one-character separator. */
  function Joined(a: string, sep: char, b: string): (k: string)
    ensures |k| == |a| + 1 + |b|
    ensures k[..|a|] == a && k[|a|] == sep && k[|a| + 1..] == b
  {
    a + [sep] + b
  }

  /** When neither left part holds the separator, its first occurrence splits the key back. */
  lemma JoinedInjectiveLeft(a1: string, b1: string, a2: string, b2: string, sep: char)
    requires sep !in a1 && sep !in a2
    requires Joined(a1, sep, b1) == Joined(a2, sep, b2)
    ensures a1 == a2 && b1 == b2
  {
  }

  /** When neither right part holds the separator, its last occurrence splits the key back. */
  lemma JoinedInjectiveRight(a1: string, b1: string, a2: string, b2: string, sep: char)
    requires sep !in b1 && sep !in b2
    requires Joined(a1, sep, b1) == Joined(a2, sep, b2)
    ensures a1 == a2 && b1 == b2
  {
  }
}
