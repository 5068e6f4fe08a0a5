/** String helpers standing for the JavaScript string and regular-expression calls the source makes. */
module Strings {
  import opened Common

  predicate StartsWith(s: string, prefix: string) {
    |prefix| <= |s| && s[..|prefix|] == prefix
  }

  /** `s.replace(/^\/+/, '')`: drops every leading '/'. */
  function StripLeadingSlashes(s: string): (r: string)
    ensures |r| <= |s|
    ensures r == [] || r[0] != '/'
    ensures s == [] || s[0] != '/' ==> r == s
  {
    if s != [] && s[0] == '/' then StripLeadingSlashes(s[1..]) else s
  }

  lemma {:induction false} StripLeadingSlashesSuffix(s: string)
    ensures StripLeadingSlashes(s) == s[|s| - |StripLeadingSlashes(s)|..]
  {
    if s != [] && s[0] == '/' {
      StripLeadingSlashesSuffix(s[1..]);
    }
  }

  /** `s.replace(/\/+$/, '')`: drops every trailing '/'. */
  function StripTrailingSlashes(s: string): (r: string)
    ensures |r| <= |s| && r == s[..|r|]
    ensures r == [] || r[|r| - 1] != '/'
  {
    if s != [] && s[|s| - 1] == '/' then StripTrailingSlashes(s[..|s| - 1]) else s
  }

  /** `s.replace(/a/g, b)` for a single character `a`. */
  function ReplaceChar(s: string, a: char, b: char): (r: string)
    ensures |r| == |s|
    ensures forall k :: 0 <= k < |s| ==> r[k] == if s[k] == a then b else s[k]
  {
    if s == [] then [] else [if s[0] == a then b else s[0]] + ReplaceChar(s[1..], a, b)
  }

  /** `s.replace(/[\\/]+/g, '')`: drops every '/' and '\'. */
  function DropSlashes(s: string): (r: string)
    ensures |r| <= |s|
    ensures forall k :: 0 <= k < |r| ==> r[k] != '/' && r[k] != '\\'
    ensures '/' !in r && '\\' !in r
  {
    if s == [] then []
    else (if s[0] == '/' || s[0] == '\\' then [] else [s[0]]) + DropSlashes(s[1..])
  }

  /**
   * The white space that `String.prototype.trim` removes: the ECMAScript
   * WhiteSpace code points (tab, vertical tab, form feed, U+FEFF and the
   * Unicode space separators) and the line terminators.
   */
  predicate IsSpace(c: char) {
    '\t' <= c <= '\r' || c == ' ' || c == '\U{00A0}' || c == '\U{1680}'
    || '\U{2000}' <= c <= '\U{200A}' || c == '\U{2028}' || c == '\U{2029}'
    || c == '\U{202F}' || c == '\U{205F}' || c == '\U{3000}' || c == '\U{FEFF}'
  }

  function TrimStart(s: string): (r: string)
    ensures r == [] || !IsSpace(r[0])
    ensures |r| <= |s| && r == s[|s| - |r|..]
  {
    if s != [] && IsSpace(s[0]) then TrimStart(s[1..]) else s
  }

  function TrimEnd(s: string): (r: string)
    ensures r == [] || !IsSpace(r[|r| - 1])
    ensures |r| <= |s| && r == s[..|r|]
  {
    if s != [] && IsSpace(s[|s| - 1]) then TrimEnd(s[..|s| - 1]) else s
  }

  /**
   * `s.trim()`: white space gone at both ends, nothing else removed, and a
   * string without white space at its ends left as it is.
   */
  function Trim(s: string): (r: string)
    ensures r == [] || (!IsSpace(r[0]) && !IsSpace(r[|r| - 1]))
    ensures forall c :: c in r ==> c in s
    ensures s == [] || (!IsSpace(s[0]) && !IsSpace(s[|s| - 1])) ==> r == s
  {
    var a := TrimStart(s);
    var r := TrimEnd(a);
    assert r != [] ==> r[0] == a[0];
    assert forall c :: c in r ==> c in s by {
      forall c | c in r
        ensures c in s
      {
        var k :| 0 <= k < |r| && r[k] == c;
        assert s[|s| - |a| + k] == c;
      }
    }
    r
  }

  /** A trailing ideographic space U+3000 is white space to `trim`. */
  lemma {:induction false} TrimIdeographicSpace(name: string)
    requires name != [] && !IsSpace(name[0]) && !IsSpace(name[|name| - 1])
    ensures Trim(name + "\U{3000}") == name
  {
    var a := name + "\U{3000}";
    assert a[0] == name[0] && IsSpace(a[|a| - 1]);
    assert a[..|a| - 1] == name;
    assert TrimStart(a) == a;
    assert TrimEnd(name) == name;
  }

  /** A leading em space U+2003, one of the Unicode space separators, is white space to `trim`. */
  lemma {:induction false} TrimEmSpace(name: string)
    requires name != [] && !IsSpace(name[0]) && !IsSpace(name[|name| - 1])
    ensures Trim("\U{2003}" + name) == name
  {
    var b := "\U{2003}" + name;
    assert IsSpace(b[0]) && b[1..] == name;
    assert TrimStart(name) == name;
    assert TrimEnd(name) == name;
  }

  /** `s.lastIndexOf(c)`: the last position of `c`, or None for -1. */
  function LastIndexOf(s: string, c: char): (r: Option<nat>)
    ensures r.Some? ==> r.value < |s| && s[r.value] == c && c !in s[r.value + 1..]
    ensures r.None? ==> c !in s
  {
    if s == [] then None
    else if s[|s| - 1] == c then Some(|s| - 1)
    else LastIndexOf(s[..|s| - 1], c)
  }

  /** `toLowerCase()` on the Latin capital letters. */
  function LowerChar(c: char): char {
    if 'A' <= c <= 'Z' then (c as int + 32) as char else c
  }

  function ToLower(s: string): (r: string)
    ensures |r| == |s|
    ensures forall k :: 0 <= k < |s| ==> r[k] == LowerChar(s[k])
  {
    if s == [] then [] else [LowerChar(s[0])] + ToLower(s[1..])
  }

  /** `s.split('/')`: the segments between slashes (always at least one). */
  function Split(s: string): (r: seq<string>)
    ensures |r| >= 1
    ensures forall k :: 0 <= k < |r| ==> '/' !in r[k]
  {
    if s == [] then [[]]
    else
      var rest := Split(s[1..]);
      if s[0] == '/' then [[]] + rest else [[s[0]] + rest[0]] + rest[1..]
  }

  /** `segs.join('/')`. */
  function Join(segs: seq<string>): string {
    if segs == [] then []
    else if |segs| == 1 then segs[0]
    else segs[0] + "/" + Join(segs[1..])
  }

  lemma {:induction false} JoinSplit(s: string)
    ensures Join(Split(s)) == s
  {
    if s != [] {
      JoinSplit(s[1..]);
      var rest := Split(s[1..]);
      if s[0] == '/' {
        assert Split(s) == [[]] + rest;
        assert Join([[]] + rest) == [] + "/" + Join(rest);
      } else {
        var segs := [[s[0]] + rest[0]] + rest[1..];
        assert Split(s) == segs;
        if |rest| == 1 {
          assert Join(segs) == [s[0]] + rest[0];
        } else {
          assert Join(segs) == [s[0]] + rest[0] + "/" + Join(rest[1..]);
          assert Join(rest) == rest[0] + "/" + Join(rest[1..]);
        }
      }
    }
  }

  lemma {:induction false} SplitNoSlash(x: string)
    requires '/' !in x
    ensures Split(x) == [x]
  {
    if x != [] {
      SplitNoSlash(x[1..]);
      assert x == [x[0]] + x[1..];
    }
  }

  /** Splitting at a '/' splits the two sides independently. */
  lemma {:induction false} SplitAppend(x: string, y: string)
    ensures Split(x + "/" + y) == Split(x) + Split(y)
  {
    if x == [] {
      assert x + "/" + y == ['/'] + y;
      assert (['/'] + y)[1..] == y;
    } else {
      var s := x + "/" + y;
      SplitAppend(x[1..], y);
      assert s[1..] == x[1..] + "/" + y && s[0] == x[0];
      var sx := Split(x[1..]);
      if x[0] == '/' {
        assert [[]] + (sx + Split(y)) == ([[]] + sx) + Split(y);
      } else {
        ExtendFirst([x[0]], sx, Split(y));
      }
    }
  }

  lemma {:induction false} ExtendFirst(h: string, p: seq<string>, q: seq<string>)
    requires |p| >= 1
    ensures [h + (p + q)[0]] + (p + q)[1..] == ([h + p[0]] + p[1..]) + q
  {
    assert (p + q)[0] == p[0] && (p + q)[1..] == p[1..] + q;
  }

  /** A string that is not all slashes keeps its tail when leading slashes are stripped. */
  lemma {:induction false} StripLeadingSlashesAppend(x: string, y: string)
    requires StripLeadingSlashes(x) != []
    ensures StripLeadingSlashes(x + y) == StripLeadingSlashes(x) + y
  {
    if x[0] == '/' {
      StripLeadingSlashesAppend(x[1..], y);
      assert (x + y)[1..] == x[1..] + y;
    }
  }
}
