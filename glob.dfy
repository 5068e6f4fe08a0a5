/**
 * Ignore patterns. A glob is turned into an anchored regular expression:
 * `**` matches any run of characters other than line terminators (the
 * regular-expression `.*`), `*` any run without '/', `?` one character other
 * than '/', and every other character itself (regular-expression meta
 * characters are escaped first, so they are literal).
 */
module Glob {
  import opened Strings

  datatype Tok =
    | Lit(c: char)   // the character itself
    | AnyRun         // `.*`
    | SegRun         // `[^/]*`
    | SegChar        // `[^/]`

  /** The characters the regular-expression `.` does not match. */
  predicate LineTerminator(c: char) {
    c == '\n' || c == '\r' || c == '\U{2028}' || c == '\U{2029}'
  }

  /**
   * The translation of a glob: pairs of `*` are replaced first, left to right,
   * then single `*`, then `?`.
   */
  function Tokens(g: string): (r: seq<Tok>)
    ensures |r| <= |g|
  {
    if g == [] then []
    else if |g| >= 2 && g[0] == '*' && g[1] == '*' then [AnyRun] + Tokens(g[2..])
    else if g[0] == '*' then [SegRun] + Tokens(g[1..])
    else if g[0] == '?' then [SegChar] + Tokens(g[1..])
    else [Lit(g[0])] + Tokens(g[1..])
  }

  /** The anchored match of `s` against the whole token sequence. */
  predicate Match(t: seq<Tok>, s: string)
    decreases |s|, |t|
  {
    if t == [] then s == []
    else match t[0]
      case Lit(c) => s != [] && s[0] == c && Match(t[1..], s[1..])
      case SegChar => s != [] && s[0] != '/' && Match(t[1..], s[1..])
      case SegRun => Match(t[1..], s) || (s != [] && s[0] != '/' && Match(t, s[1..]))
      case AnyRun => Match(t[1..], s) || (s != [] && !LineTerminator(s[0]) && Match(t, s[1..]))
  }

  /** `globToRegExp(glob).test(s)`. */
  predicate GlobTest(g: string, s: string) {
    Match(Tokens(g), s)
  }

  /** `matchesIgnore(rel)`: some ignore pattern matches the relative path. */
  predicate MatchesIgnore(patterns: seq<string>, rel: string) {
    exists i :: 0 <= i < |patterns| && GlobTest(patterns[i], rel)
  }

  /** Matching a concatenation of patterns: a match of each part gives a match of the whole. */
  lemma {:induction false} MatchJoin(t1: seq<Tok>, t2: seq<Tok>, a: string, b: string)
    requires Match(t1, a) && Match(t2, b)
    ensures Match(t1 + t2, a + b)
    decreases |a|, |t1|
  {
    if t1 == [] {
      assert t1 + t2 == t2 && a + b == b;
    } else {
      var t := t1 + t2;
      assert t[0] == t1[0] && t[1..] == t1[1..] + t2;
      match t1[0]
      case Lit(c) =>
        MatchJoin(t1[1..], t2, a[1..], b);
        assert (a + b)[1..] == a[1..] + b;
      case SegChar =>
        MatchJoin(t1[1..], t2, a[1..], b);
        assert (a + b)[1..] == a[1..] + b;
      case SegRun =>
        if Match(t1[1..], a) {
          MatchJoin(t1[1..], t2, a, b);
        } else {
          MatchJoin(t1, t2, a[1..], b);
          assert (a + b)[1..] == a[1..] + b;
        }
      case AnyRun =>
        if Match(t1[1..], a) {
          MatchJoin(t1[1..], t2, a, b);
        } else {
          MatchJoin(t1, t2, a[1..], b);
          assert (a + b)[1..] == a[1..] + b;
        }
    }
  }

  /** And conversely: a match of the whole splits into a match of each part. */
  lemma {:induction false} MatchSplit(t1: seq<Tok>, t2: seq<Tok>, s: string) returns (k: nat)
    requires Match(t1 + t2, s)
    ensures k <= |s| && Match(t1, s[..k]) && Match(t2, s[k..])
    decreases |s|, |t1|
  {
    if t1 == [] {
      assert t1 + t2 == t2;
      k := 0;
    } else {
      var t := t1 + t2;
      assert t[0] == t1[0] && t[1..] == t1[1..] + t2;
      match t1[0]
      case Lit(c) =>
        var k' := MatchSplit(t1[1..], t2, s[1..]);
        k := k' + 1;
        assert s[..k][1..] == s[1..][..k'] && s[k..] == s[1..][k'..];
      case SegChar =>
        var k' := MatchSplit(t1[1..], t2, s[1..]);
        k := k' + 1;
        assert s[..k][1..] == s[1..][..k'] && s[k..] == s[1..][k'..];
      case SegRun =>
        if Match(t1[1..] + t2, s) {
          k := MatchSplit(t1[1..], t2, s);
        } else {
          var k' := MatchSplit(t1, t2, s[1..]);
          k := k' + 1;
          assert s[..k][1..] == s[1..][..k'] && s[k..] == s[1..][k'..];
        }
      case AnyRun =>
        if Match(t1[1..] + t2, s) {
          k := MatchSplit(t1[1..], t2, s);
        } else {
          var k' := MatchSplit(t1, t2, s[1..]);
          k := k' + 1;
          assert s[..k][1..] == s[1..][..k'] && s[k..] == s[1..][k'..];
        }
    }
  }

  /** `*` matches exactly the strings without '/'. */
  lemma {:induction false} SegRunMatches(s: string)
    ensures Match([SegRun], s) <==> '/' !in s
    decreases |s|
  {
    assert [SegRun][1..] == [];
    if s != [] {
      SegRunMatches(s[1..]);
      assert s == [s[0]] + s[1..];
    }
  }

  /** `**` matches exactly the strings without line terminators. */
  lemma {:induction false} AnyRunMatches(s: string)
    ensures Match([AnyRun], s) <==> forall k :: 0 <= k < |s| ==> !LineTerminator(s[k])
    decreases |s|
  {
    assert [AnyRun][1..] == [];
    if s != [] {
      AnyRunMatches(s[1..]);
      assert forall k :: 1 <= k < |s| ==> s[k] == s[1..][k - 1];
    }
  }

  /** `?` matches exactly the one-character strings other than "/". */
  lemma {:induction false} SegCharMatches(s: string)
    ensures Match([SegChar], s) <==> |s| == 1 && s[0] != '/'
  {
    assert [SegChar][1..] == [];
  }

  predicate Wildcard(c: char) {
    c == '*' || c == '?'
  }

  /** The tokens of a glob without wildcards: each character stands for itself. */
  function Lits(w: string): (r: seq<Tok>)
    ensures |r| == |w|
    ensures forall k :: 0 <= k < |w| ==> r[k] == Lit(w[k])
  {
    if w == [] then [] else [Lit(w[0])] + Lits(w[1..])
  }

  lemma {:induction false} LiteralTokens(g: string)
    requires forall k :: 0 <= k < |g| ==> !Wildcard(g[k])
    ensures Tokens(g) == Lits(g)
  {
    if g != [] {
      assert forall k :: 0 <= k < |g[1..]| ==> g[1..][k] == g[k + 1];
      LiteralTokens(g[1..]);
    }
  }

  /** Literal tokens in front of a pattern consume exactly that text. */
  lemma {:induction false} LitsPrefix(w: string, t: seq<Tok>, s: string)
    ensures Match(Lits(w) + t, s) <==> StartsWith(s, w) && Match(t, s[|w|..])
    decreases |w|
  {
    if w != [] {
      var u := Lits(w) + t;
      assert u[0] == Lit(w[0]) && u[1..] == Lits(w[1..]) + t;
      if s != [] {
        LitsPrefix(w[1..], t, s[1..]);
        if |w| <= |s| {
          assert s[1..][|w| - 1..] == s[|w|..];
          assert s[..|w|] == [s[0]] + s[1..][..|w| - 1];
          assert w == [w[0]] + w[1..];
        }
      }
    } else {
      assert Lits(w) + t == t;
    }
  }

  /** A glob without wildcards matches only itself. */
  lemma {:induction false} LiteralGlob(g: string, s: string)
    requires forall k :: 0 <= k < |g| ==> !Wildcard(g[k])
    ensures GlobTest(g, s) <==> s == g
  {
    LiteralTokens(g);
    LitsPrefix(g, [], s);
    assert Lits(g) + [] == Lits(g);
  }

  /** `*` followed by literal text: no '/' before the text, which ends the string. */
  lemma {:induction false} SegRunThenLits(w: string, s: string)
    ensures Match([SegRun] + Lits(w), s) <==>
      |w| <= |s| && s[|s| - |w|..] == w && '/' !in s[..|s| - |w|]
  {
    if Match([SegRun] + Lits(w), s) {
      SegRunThenLitsSplit(w, s);
    }
    if |w| <= |s| && s[|s| - |w|..] == w && '/' !in s[..|s| - |w|] {
      SegRunThenLitsJoin(w, s);
    }
  }

  lemma {:induction false} SegRunThenLitsSplit(w: string, s: string)
    requires Match([SegRun] + Lits(w), s)
    ensures |w| <= |s| && s[|s| - |w|..] == w && '/' !in s[..|s| - |w|]
  {
    var k := MatchSplit([SegRun], Lits(w), s);
    SegRunMatches(s[..k]);
    var tail := s[k..];
    assert Lits(w) + [] == Lits(w);
    LitsPrefix(w, [], tail);
    assert StartsWith(tail, w) && Match([], tail[|w|..]);
    assert tail[|w|..] == [];
    assert tail == w;
    assert k == |s| - |w|;
  }

  lemma {:induction false} SegRunThenLitsJoin(w: string, s: string)
    requires |w| <= |s| && s[|s| - |w|..] == w && '/' !in s[..|s| - |w|]
    ensures Match([SegRun] + Lits(w), s)
  {
    var k := |s| - |w|;
    var head := s[..k];
    SegRunMatches(head);
    LitsSelf(w);
    MatchJoin([SegRun], Lits(w), head, w);
    assert head + w == s;
  }

  /** A word matches its own literal translation. */
  lemma {:induction false} LitsSelf(w: string)
    ensures Match(Lits(w), w)
    decreases |w|
  {
    if w != [] {
      LitsSelf(w[1..]);
    }
  }

  // The patterns used in the plugin's own tests, characterised for every input.

  /** The pattern "vault, slash, star, .md" matches the markdown files directly inside `vault/`. */
  lemma {:induction false} DirectChildGlob(s: string)
    ensures GlobTest("vault/*.md", s) <==>
      StartsWith(s, "vault/") && |s| >= 9 && s[|s| - 3..] == ".md" && '/' !in s[6..|s| - 3]
  {
    DirectChildTokens();
    LitsPrefix("vault/", [SegRun] + Lits(".md"), s);
    if StartsWith(s, "vault/") {
      SegRunThenLits(".md", s[6..]);
      if |s| >= 9 {
        DirectChildRest(s);
      }
    }
  }

  /** Literal text in front of a glob translates character by character. */
  lemma {:induction false} TokensLitPrefix(g: string, rest: string)
    requires forall k :: 0 <= k < |g| ==> !Wildcard(g[k])
    ensures Tokens(g + rest) == Lits(g) + Tokens(rest)
    decreases |g|
  {
    if g != [] {
      assert (g + rest)[1..] == g[1..] + rest;
      assert forall k :: 0 <= k < |g[1..]| ==> g[1..][k] == g[k + 1];
      TokensLitPrefix(g[1..], rest);
    } else {
      assert g + rest == rest;
    }
  }

  /** `*.md`: a segment run, then the literal suffix. */
  lemma {:induction false} StarMdTokens()
    ensures Tokens("*.md") == [SegRun] + Lits(".md")
  {
    assert "*.md"[1..] == ".md";
    LiteralTokens(".md");
  }

  lemma {:induction false} DirectChildTokens()
    ensures Tokens("vault/*.md") == Lits("vault/") + ([SegRun] + Lits(".md"))
  {
    assert "vault/*.md" == "vault/" + "*.md";
    TokensLitPrefix("vault/", "*.md");
    StarMdTokens();
  }

  lemma {:induction false} AnyMarkdownTokens()
    ensures Tokens("**/*.md") == [AnyRun] + (Lits("/") + ([SegRun] + Lits(".md")))
  {
    assert "**/*.md"[2..] == "/*.md" && "/*.md" == "/" + "*.md";
    TokensLitPrefix("/", "*.md");
    StarMdTokens();
  }

  lemma {:induction false} DirectChildRest(s: string)
    requires |s| >= 9
    ensures s[6..][|s| - 9..] == s[|s| - 3..] && s[6..][..|s| - 9] == s[6..|s| - 3]
  {
  }

  /** `?.md` matches a one-character name followed by `.md`. */
  lemma {:induction false} SingleCharGlob(s: string)
    ensures GlobTest("?.md", s) <==> |s| == 4 && s[0] != '/' && s[1..] == ".md"
  {
    var suf := Lits(".md");
    assert Tokens("?.md") == [SegChar] + suf;
    if s != [] {
      LitsPrefix(".md", [], s[1..]);
      assert suf + [] == suf;
    }
  }

  /** The pattern for markdown files at any depth matches a name ending in `.md` after some slash, with no line terminator before that slash. */
  lemma {:induction false} AnyMarkdownGlob(s: string)
    ensures GlobTest("**/*.md", s) <==>
      exists k :: 0 <= k < |s| && s[k] == '/'
        && (forall j :: 0 <= j < k ==> !LineTerminator(s[j]))
        && Match([SegRun] + Lits(".md"), s[k + 1..])
  {
    var rest := [SegRun] + Lits(".md");
    AnyMarkdownTokens();
    if GlobTest("**/*.md", s) {
      var k := MatchSplit([AnyRun], Lits("/") + rest, s);
      AnyRunMatches(s[..k]);
      LitsPrefix("/", rest, s[k..]);
      assert s[k..][1..] == s[k + 1..];
      assert forall j :: 0 <= j < k ==> s[j] == s[..k][j];
    }
    if exists k :: 0 <= k < |s| && s[k] == '/'
        && (forall j :: 0 <= j < k ==> !LineTerminator(s[j]))
        && Match(rest, s[k + 1..]) {
      var k :| 0 <= k < |s| && s[k] == '/'
        && (forall j :: 0 <= j < k ==> !LineTerminator(s[j]))
        && Match(rest, s[k + 1..]);
      AnyRunMatches(s[..k]);
      LitsPrefix("/", rest, s[k..]);
      assert s[k..][1..] == s[k + 1..];
      MatchJoin([AnyRun], Lits("/") + rest, s[..k], s[k..]);
      assert s[..k] + s[k..] == s;
    }
  }
}
