/**
 * Path helpers: vault-relative paths, the local base folder, the remote base
 * folder on Yandex Disk and the mapping between remote absolute paths and
 * vault-relative paths.
 *
 * Obsidian's `normalizePath` is host code; the functions that call it take it
 * as the parameter `np`. `MockNormalizePath` is the behaviour the plugin's test
 * double gives it, and the round-trip lemmas are stated for that instance.
 */
module Paths {
  import opened Common
  import opened Strings

  // ---------------------------------------------------------------- relative paths

  /** `normalizeRelPath` in main.js: the host normaliser, then leading slashes removed. */
  function NormalizeRelPath(np: string -> string, rel: string): (r: string)
    ensures rel == [] ==> r == []
    ensures r == [] || r[0] != '/'
  {
    if rel == [] then [] else StripLeadingSlashes(np(rel))
  }

  /** `normalizeRelPath` in the older plugin copy: leading slashes removed first, backslashes converted after. */
  function OldNormalizeRelPath(rel: string): (r: string)
    ensures '\\' !in r
    ensures |r| <= |rel|
  {
    ReplaceChar(StripLeadingSlashes(rel), '\\', '/')
  }

  /** `normalizeRelPath` in reproduce_issue.js: backslashes converted first, then leading slashes removed. */
  function ReproNormalizeRelPath(rel: string): (r: string)
    ensures r == [] || r[0] != '/'
    ensures '\\' !in r
  {
    var t := ReplaceChar(rel, '\\', '/');
    StripLeadingSlashesSuffix(t);
    StripLeadingSlashes(t)
  }

  /**
   * The older helper can return a path that starts with '/': a leading
   * backslash becomes one after the slashes were stripped.
   */
  lemma {:induction false} OldNormalizeLeadingSlash(rel: string)
    requires rel != [] && rel[0] == '\\'
    ensures OldNormalizeRelPath(rel) == ReplaceChar(rel, '\\', '/') && OldNormalizeRelPath(rel)[0] == '/'
  {
  }

  /**
   * The reproduce_issue.js order (convert, then strip) drops that leading
   * separator: the rest of the path, converted.
   */
  lemma {:induction false} ReproNormalizeBackslashPath(rel: string)
    requires rel != [] && rel[0] == '\\' && (|rel| == 1 || (rel[1] != '/' && rel[1] != '\\'))
    ensures ReproNormalizeRelPath(rel) == ReplaceChar(rel[1..], '\\', '/')
  {
    var t := ReplaceChar(rel, '\\', '/');
    assert t[1..] == ReplaceChar(rel[1..], '\\', '/');
    assert StripLeadingSlashes(t) == StripLeadingSlashes(t[1..]);
  }

  /** `s.replace(/\/+/g, '/')`: every run of slashes becomes one slash. */
  function CollapseSlashes(s: string): (r: string)
    ensures |r| <= |s|
    ensures '\\' !in s ==> '\\' !in r
  {
    if s == [] then []
    else if |s| >= 2 && s[0] == '/' && s[1] == '/' then CollapseSlashes(s[1..])
    else [s[0]] + CollapseSlashes(s[1..])
  }

  /** The test double of Obsidian's `normalizePath`. */
  function MockNormalizePath(s: string): string {
    if s == [] then []
    else
      var t := CollapseSlashes(ReplaceChar(s, '\\', '/'));
      if StartsWith(t, "./") then StripLeadingSlashes(t[1..]) else t
  }

  predicate NoBackslash(s: string) {
    forall k :: 0 <= k < |s| ==> s[k] != '\\'
  }

  predicate NoDoubleSlash(s: string) {
    forall k :: 0 <= k < |s| - 1 ==> !(s[k] == '/' && s[k + 1] == '/')
  }

  /** A path the normaliser leaves as it is. */
  predicate Clean(s: string) {
    NoBackslash(s) && NoDoubleSlash(s) && (s == [] || s[0] != '/') && !StartsWith(s, "./")
  }

  lemma {:induction false} CollapseSlashesClean(s: string)
    requires NoDoubleSlash(s)
    ensures CollapseSlashes(s) == s
  {
    if s != [] {
      assert NoDoubleSlash(s[1..]) by {
        forall k | 0 <= k < |s[1..]| - 1
          ensures !(s[1..][k] == '/' && s[1..][k + 1] == '/')
        {
          assert s[1..][k] == s[k + 1] && s[1..][k + 1] == s[k + 2];
        }
      }
      CollapseSlashesClean(s[1..]);
      assert s == [s[0]] + s[1..];
    }
  }

  /** The normaliser leaves clean paths unchanged. */
  lemma {:induction false} MockNormalizeClean(s: string)
    requires Clean(s)
    ensures MockNormalizePath(s) == s
    ensures NormalizeRelPath(MockNormalizePath, s) == s
  {
    if s != [] {
      assert ReplaceChar(s, '\\', '/') == s;
      CollapseSlashesClean(s);
    }
  }

  /** Joining two clean paths with one slash gives a clean path. */
  lemma {:induction false} CleanJoin(a: string, b: string)
    requires Clean(a) && Clean(b) && a != [] && a != "." && b != [] && a[|a| - 1] != '/'
    ensures Clean(a + "/" + b)
  {
    var s := a + "/" + b;
    assert s[..|a|] == a;
    forall k | 0 <= k < |s| - 1
      ensures !(s[k] == '/' && s[k + 1] == '/')
    {
      if k < |a| - 1 {
        assert s[k] == a[k] && s[k + 1] == a[k + 1];
      } else if k == |a| - 1 {
        assert s[k] == a[|a| - 1];
      } else if k == |a| {
        assert s[k + 1] == b[0];
      } else {
        assert s[k] == b[k - |a| - 1] && s[k + 1] == b[k - |a|];
      }
    }
    forall k | 0 <= k < |s|
      ensures s[k] != '\\'
    {
      if k < |a| {
        assert s[k] == a[k];
      } else if k > |a| {
        assert s[k] == b[k - |a| - 1];
      }
    }
  }

  // ---------------------------------------------------------------- extension

  /** `getExt`: the lower-cased text after the last '.', or "" when there is none. */
  function GetExt(name: string): (r: string)
    ensures '.' !in name ==> r == []
    ensures '.' in name ==> '.' !in r
  {
    match LastIndexOf(name, '.')
    case None => []
    case Some(i) =>
      ToLower(name[i + 1..])
  }

  /** The extension of `stem.ext` is the lower-cased `ext`, whatever the stem. */
  lemma {:induction false} GetExtOfName(stem: string, ext: string)
    requires '.' !in ext
    ensures GetExt(stem + "." + ext) == ToLower(ext)
  {
    var name := stem + "." + ext;
    assert name[|stem|] == '.';
    assert name[|stem| + 1..] == ext;
    var i := LastIndexOf(name, '.');
    assert i.Some?;
    assert i.value == |stem|;
  }

  // ---------------------------------------------------------------- local base folder

  /** The local base folder as a prefix: normalised and followed by '/', or "" for the whole vault. */
  function LocalBasePrefix(np: string -> string, localBasePath: string): string {
    if localBasePath == [] then [] else NormalizeRelPath(np, localBasePath) + "/"
  }

  /** `toLocalRel`: a vault path made relative to the local base folder. */
  function ToLocalRel(np: string -> string, localBasePath: string, fullPath: string): string {
    var base := LocalBasePrefix(np, localBasePath);
    if base == [] then NormalizeRelPath(np, fullPath)
    else if StartsWith(fullPath, base) then NormalizeRelPath(np, fullPath[|base|..])
    else NormalizeRelPath(np, fullPath)
  }

  /** `fromLocalRel`: a path relative to the local base folder made a vault path. */
  function FromLocalRel(np: string -> string, localBasePath: string, rel: string): string {
    NormalizeRelPath(np, LocalBasePrefix(np, localBasePath) + rel)
  }

  /**
   * `inScope(rel, fullPath)`: with a local base folder set, the candidate path
   * (the full path, else the relative path) must be that folder or lie below it.
   */
  predicate InScope(np: string -> string, localBasePath: string, rel: Option<string>, fullPath: Option<string>) {
    if localBasePath == [] then true
    else
      var base := NormalizeRelPath(np, localBasePath);
      if base == [] then true
      else
        var source := if fullPath.Some? then fullPath.value else if rel.Some? then rel.value else [];
        var candidate := NormalizeRelPath(np, source);
        if candidate == [] then false
        else candidate == base || StartsWith(candidate, base + "/")
  }

  /** With a clean base folder, a clean relative path survives the trip to a vault path and back. */
  lemma {:induction false} LocalRelRoundTrip(localBasePath: string, rel: string)
    requires Clean(localBasePath) && localBasePath != [] && localBasePath != "." && localBasePath[|localBasePath| - 1] != '/'
    requires Clean(rel) && rel != []
    ensures FromLocalRel(MockNormalizePath, localBasePath, rel) == localBasePath + "/" + rel
    ensures ToLocalRel(MockNormalizePath, localBasePath, localBasePath + "/" + rel) == rel
    ensures InScope(MockNormalizePath, localBasePath, Some(rel), Some(localBasePath + "/" + rel))
  {
    var np := MockNormalizePath;
    MockNormalizeClean(localBasePath);
    CleanJoin(localBasePath, rel);
    MockNormalizeClean(localBasePath + "/" + rel);
    MockNormalizeClean(rel);
    var full := localBasePath + "/" + rel;
    assert LocalBasePrefix(np, localBasePath) == localBasePath + "/";
    assert LocalBasePrefix(np, localBasePath) + rel == full;
    assert full[..|localBasePath| + 1] == localBasePath + "/";
    assert full[|localBasePath| + 1..] == rel;
  }

  /** Scope is by whole folder names: a sibling folder whose name extends the base is outside. */
  lemma {:induction false} InScopeSegmentBoundary(base: string, other: string)
    requires Clean(base) && base != [] && Clean(base + other) && other != [] && other[0] != '/'
    ensures !InScope(MockNormalizePath, base, None, Some(base + other))
  {
    MockNormalizeClean(base);
    MockNormalizeClean(base + other);
    assert !StartsWith(base + other, base + "/") by {
      assert (base + other)[|base|] == other[0];
      assert (base + "/")[|base|] == '/';
    }
  }

  // ---------------------------------------------------------------- remote base folder

  /**
   * `getRemoteBase` in main.js: the remote root without trailing slashes, '/',
   * the vault folder. `vaultName` is what the host's `vault.getName()` returns.
   */
  function GetRemoteBase(remoteBasePath: string, vaultFolderName: string, vaultName: string): (r: string)
    ensures exists k :: RemoteBaseShape(r, k)
  {
    var base := StripTrailingSlashes(if remoteBasePath == [] then "app:/" else remoteBasePath);
    var folder1 := ConfiguredFolder(vaultFolderName, vaultName);
    var folder := if folder1 == [] then SuggestedFolderName(vaultName) else folder1;
    RemoteBaseShapeOf(base, folder);
    base + "/" + folder
  }

  /**
   * `getSuggestedVaultFolderName`: the vault's name ("vault" when the host
   * gives none; a throwing `getName` also ends in "vault") without slashes or backslashes and trimmed, or "vault" when
   * nothing is left. The result is always a plain folder name, so the
   * `|| 'vault'` fallbacks after it in `getRemoteBase` never apply.
   */
  function SuggestedFolderName(vaultName: string): (r: string)
    ensures PlainFolder(r)
  {
    var f := Trim(DropSlashes(if vaultName == [] then "vault" else vaultName));
    if f == [] then VaultPlain(); "vault" else f
  }

  /**
   * The first two steps of the folder in `getRemoteBase`: the configured
   * folder (else the suggested one) trimmed, then its slashes and
   * backslashes dropped. The result may be empty.
   */
  function ConfiguredFolder(vaultFolderName: string, vaultName: string): (f: string)
    ensures forall k :: 0 <= k < |f| ==> f[k] != '/' && f[k] != '\\'
  {
    DropSlashes(Trim(if vaultFolderName != [] then vaultFolderName else SuggestedFolderName(vaultName)))
  }

  /** `getRemoteBase` in the older plugin copy: the fallback folder is always "vault". */
  function OldGetRemoteBase(remoteBasePath: string, vaultFolderName: string, vaultName: string): (r: string)
    ensures exists k :: RemoteBaseShape(r, k)
  {
    var base := StripTrailingSlashes(if remoteBasePath == [] then "app:/" else remoteBasePath);
    var folder1 := ConfiguredFolder(vaultFolderName, vaultName);
    var folder := if folder1 == [] then "vault" else folder1;
    RemoteBaseShapeOf(base, folder);
    base + "/" + folder
  }

  lemma {:induction false} VaultPlain()
    ensures PlainFolder("vault")
  {
    var v := "vault";
    assert forall k :: 0 <= k < |v| ==> v[k] in {'v', 'a', 'u', 'l', 't'};
  }

  /** A folder name that `trim` and the slash removal leave as it is. */
  predicate PlainFolder(folder: string) {
    folder != [] && !IsSpace(folder[0]) && !IsSpace(folder[|folder| - 1])
    && forall k :: 0 <= k < |folder| ==> folder[k] != '/' && folder[k] != '\\'
  }

  lemma {:induction false} DropSlashesPlain(s: string)
    requires forall k :: 0 <= k < |s| ==> s[k] != '/' && s[k] != '\\'
    ensures DropSlashes(s) == s
  {
    if s != [] {
      DropSlashesPlain(s[1..]);
    }
  }

  /** With the default root `app:/` and a plain folder name, both copies sync the folder `app:/<folder>`. */
  lemma {:induction false} RemoteBaseApp(folder: string, vaultName: string)
    requires PlainFolder(folder)
    ensures GetRemoteBase("app:/", folder, vaultName) == "app:/" + folder
    ensures OldGetRemoteBase("app:/", folder, vaultName) == "app:/" + folder
  {
    AppRoot();
    PlainFolderKept(folder, vaultName);
    assert "app:" + "/" + folder == "app:/" + folder;
  }

  lemma {:induction false} AppRoot()
    ensures StripTrailingSlashes("app:/") == "app:"
  {
    assert StripTrailingSlashes("app:/") == StripTrailingSlashes("app:");
  }

  lemma {:induction false} PlainFolderKept(folder: string, vaultName: string)
    requires PlainFolder(folder)
    ensures ConfiguredFolder(folder, vaultName) == folder
  {
    assert Trim(folder) == folder;
    DropSlashesPlain(folder);
  }

  /** With no folder configured, the current copy syncs `app:/` and the suggested folder. */
  lemma {:induction false} RemoteBaseDefaultFolder(vaultName: string)
    ensures GetRemoteBase("app:/", "", vaultName) == "app:/" + SuggestedFolderName(vaultName)
  {
    var f := SuggestedFolderName(vaultName);
    RemoteBaseApp(f, vaultName);
    assert GetRemoteBase("app:/", "", vaultName) == GetRemoteBase("app:/", f, vaultName);
  }

  /** A vault name that is already a plain folder name is suggested as it is. */
  lemma {:induction false} SuggestedPlainName(vaultName: string)
    requires PlainFolder(vaultName)
    ensures SuggestedFolderName(vaultName) == vaultName
  {
    DropSlashesPlain(vaultName);
    assert Trim(vaultName) == vaultName;
  }

  /** A vault name made only of slashes and white space falls back to "vault". */
  lemma {:induction false} SuggestedBlankName(vaultName: string)
    requires vaultName != []
    requires forall k :: 0 <= k < |vaultName| ==> IsSpace(vaultName[k]) || vaultName[k] == '/'
    ensures SuggestedFolderName(vaultName) == "vault"
  {
    DropSlashesOnlySpaces(vaultName);
    TrimAllSpaces(DropSlashes(vaultName));
  }

  lemma {:induction false} DropSlashesOnlySpaces(s: string)
    requires forall k :: 0 <= k < |s| ==> IsSpace(s[k]) || s[k] == '/'
    ensures forall k :: 0 <= k < |DropSlashes(s)| ==> IsSpace(DropSlashes(s)[k])
  {
    if s != [] {
      DropSlashesOnlySpaces(s[1..]);
      var head := if s[0] == '/' || s[0] == '\\' then [] else [s[0]];
      assert DropSlashes(s) == head + DropSlashes(s[1..]);
    }
  }

  lemma {:induction false} TrimAllSpaces(s: string)
    requires forall k :: 0 <= k < |s| ==> IsSpace(s[k])
    ensures Trim(s) == []
  {
    TrimStartAllSpaces(s);
  }

  lemma {:induction false} TrimStartAllSpaces(s: string)
    requires forall k :: 0 <= k < |s| ==> IsSpace(s[k])
    ensures TrimStart(s) == []
  {
    if s != [] {
      TrimStartAllSpaces(s[1..]);
    }
  }

  /** `r` is a root without a trailing slash, then '/', then a non-empty folder name without slashes. */
  predicate RemoteBaseShape(r: string, k: int) {
    0 <= k < |r| - 1 && r[k] == '/' && (k == 0 || r[k - 1] != '/')
    && forall j :: k < j < |r| ==> r[j] != '/' && r[j] != '\\'
  }

  lemma {:induction false} RemoteBaseShapeOf(base: string, folder: string)
    requires base == [] || base[|base| - 1] != '/'
    requires folder != [] && forall j :: 0 <= j < |folder| ==> folder[j] != '/' && folder[j] != '\\'
    ensures RemoteBaseShape(base + "/" + folder, |base|)
  {
    var r := base + "/" + folder;
    forall j | |base| < j < |r|
      ensures r[j] != '/' && r[j] != '\\'
    {
      assert r[j] == folder[j - |base| - 1];
    }
  }

  /** `buildRemoteRoot` in reproduce_issue.js: the root, then the folder when one is configured. */
  function BuildRemoteRoot(remoteBase: string, vaultFolder: string): (r: string)
    ensures DropSlashes(vaultFolder) == [] ==> r == StripTrailingSlashes(if remoteBase == [] then "app:/" else remoteBase)
  {
    var base := StripTrailingSlashes(if remoteBase == [] then "app:/" else remoteBase);
    var folder := DropSlashes(vaultFolder);
    if folder != [] then base + "/" + folder else base
  }

  /** `buildRemotePath` in reproduce_issue.js. */
  function BuildRemotePath(remoteBase: string, vaultFolder: string, rel: string): string {
    BuildRemoteRoot(remoteBase, vaultFolder) + "/" + ReproNormalizeRelPath(rel)
  }

  // ---------------------------------------------------------------- remote absolute paths

  lemma {:induction false} StripAliasDisk(x: string)
    ensures StripAlias("disk:" + x) == x
    ensures StartsWith("disk:" + x, "disk:") && !StartsWith("disk:" + x, "app:")
  {
    var p := "disk:" + x;
    assert p[..5] == "disk:";
    assert p[0] == 'd';
    assert p[5..] == x;
  }

  lemma {:induction false} StripAliasApp(x: string)
    ensures StripAlias("app:" + x) == x
    ensures StartsWith("app:" + x, "app:")
  {
    var p := "app:" + x;
    assert p[..4] == "app:";
    assert p[4..] == x;
  }

  predicate HasAlias(p: string) {
    StartsWith(p, "app:") || StartsWith(p, "disk:") || StartsWith(p, "trash:")
  }

  /** `p.replace(/^(app:|disk:|trash:)/, '')`. */
  function StripAlias(p: string): string {
    if StartsWith(p, "app:") then p[4..]
    else if StartsWith(p, "disk:") then p[5..]
    else if StartsWith(p, "trash:") then p[6..]
    else p
  }

  /** `remoteAbs`: the remote absolute path of a vault-relative path under the remote base. */
  function RemoteAbs(np: string -> string, remoteBase: string, rel: string): string {
    var base := StripTrailingSlashes(remoteBase);
    if HasAlias(base) then base + "/" + NormalizeRelPath(np, rel)
    else (if StartsWith(base, "/") then base else "/" + base) + "/" + NormalizeRelPath(np, rel)
  }

  /**
   * `remoteAbsToRel` (the same text in main.js and the older copy). With an
   * `app:` base the listing reports `disk:/<two folders>/…`, so the first two
   * segments are dropped before the base folder is removed; with any other
   * base, the base is removed when it is a plain string prefix.
   */
  function RemoteAbsToRel(abs: string, base: string): string {
    var a := StripLeadingSlashes(StripAlias(abs));
    var b := StripLeadingSlashes(StripAlias(base));
    if StartsWith(base, "app:") then
      var segs := Split(a);
      var a2 := if |segs| >= 2 then Join(segs[2..]) else Join(segs);
      if b != [] && a2 == b then []
      else if b != [] && StartsWith(a2, b + "/") then a2[|b| + 1..]
      else a2
    else if b != [] && StartsWith(a, b) then
      var rel := a[|b|..];
      if StartsWith(rel, "/") then rel[1..] else rel
    else a
  }

  /**
   * A listed path under the expanded application folder: the alias and the
   * leading slash go, and dropping the two positional segments leaves `tail`.
   */
  lemma {:induction false} AppPathSegments(s1: string, s2: string, tail: string)
    requires s1 != [] && '/' !in s1 && '/' !in s2
    ensures var a := s1 + "/" + (s2 + "/" + tail);
      StripLeadingSlashes(StripAlias("disk:/" + a)) == a && |Split(a)| >= 2 && Join(Split(a)[2..]) == tail
  {
    var rest := s2 + "/" + tail;
    var a := s1 + "/" + rest;
    StripAliasDisk("/" + a);
    assert "disk:/" + a == "disk:" + ("/" + a);
    assert ("/" + a)[1..] == a;
    assert a[0] == s1[0];
    SplitAppend(s1, rest);
    SplitAppend(s2, tail);
    SplitNoSlash(s1);
    SplitNoSlash(s2);
    assert Split(a) == [s1] + ([s2] + Split(tail));
    assert Split(a)[2..] == Split(tail);
    JoinSplit(tail);
  }

  /** An `app:` base loses its alias and leading slash. */
  lemma {:induction false} AppBase(folder: string)
    requires folder == [] || folder[0] != '/'
    ensures StripLeadingSlashes(StripAlias("app:/" + folder)) == folder && StartsWith("app:/" + folder, "app:")
  {
    StripAliasApp("/" + folder);
    assert "app:/" + folder == "app:" + ("/" + folder);
    assert ("/" + folder)[1..] == folder;
    if folder == [] {
      assert StripLeadingSlashes("/") == StripLeadingSlashes("/"[1..]);
    }
  }

  /**
   * With an `app:` base, a path the listing reports under the expanded
   * application folder maps back to the relative path, whatever the two
   * expanded folder names are.
   */
  lemma {:induction false} RemoteAbsToRelApp(s1: string, s2: string, folder: string, rel: string)
    requires s1 != [] && '/' !in s1 && '/' !in s2
    requires folder != [] && folder[0] != '/'
    ensures RemoteAbsToRel("disk:/" + s1 + "/" + s2 + "/" + folder + "/" + rel, "app:/" + folder) == rel
  {
    var tail := folder + "/" + rel;
    assert "disk:/" + s1 + "/" + s2 + "/" + folder + "/" + rel == "disk:/" + (s1 + "/" + (s2 + "/" + tail));
    AppPathSegments(s1, s2, tail);
    AppBase(folder);
    assert |tail| > |folder|;
    assert tail[..|folder| + 1] == folder + "/";
    assert tail[|folder| + 1..] == rel;
  }

  /**
   * With the bare application folder `app:/` as the base, nothing is removed
   * after the two positional segments: a file of the vault folder keeps that
   * folder's name in front of its relative path.
   */
  lemma {:induction false} RemoteAbsToRelAppRoot(s1: string, s2: string, folder: string, rel: string)
    requires s1 != [] && '/' !in s1 && '/' !in s2
    ensures RemoteAbsToRel("disk:/" + s1 + "/" + s2 + "/" + folder + "/" + rel, "app:/") == folder + "/" + rel
  {
    var tail := folder + "/" + rel;
    assert "disk:/" + s1 + "/" + s2 + "/" + folder + "/" + rel == "disk:/" + (s1 + "/" + (s2 + "/" + tail));
    AppPathSegments(s1, s2, tail);
    AppBase([]);
    assert "app:/" + [] == "app:/";
  }

  /**
   * With a `disk:` base, a path below the base maps back to the relative path
   * (the identity `remoteAbsToRel(remoteAbs(rel)) == normalizeRelPath(rel)`).
   */
  lemma {:induction false} RemoteAbsToRelDisk(np: string -> string, root: string, rel: string)
    requires StripLeadingSlashes(root) != [] && root[|root| - 1] != '/'
    ensures RemoteAbs(np, "disk:" + root, rel) == "disk:" + root + "/" + NormalizeRelPath(np, rel)
    ensures RemoteAbsToRel(RemoteAbs(np, "disk:" + root, rel), "disk:" + root) == NormalizeRelPath(np, rel)
  {
    var base := "disk:" + root;
    var n := NormalizeRelPath(np, rel);
    assert StripTrailingSlashes(base) == base;
    StripAliasDisk(root);
    var abs := base + "/" + n;
    StripAliasDisk(root + ("/" + n));
    assert abs == "disk:" + (root + ("/" + n));
    StripLeadingSlashesAppend(root, "/" + n);
    var b := StripLeadingSlashes(root);
    var a := b + ("/" + n);
    assert a[..|b|] == b && a[|b|..] == "/" + n;
  }

  /**
   * The disk branch removes the base as a plain prefix: a path that
   * continues the base's last name without a '/' maps to that continuation,
   * so a sibling folder with a longer name (`/RootOther` beside `/Root`)
   * is taken to be below the base.
   */
  lemma {:induction false} RemoteAbsToRelDiskPrefix(b: string, rest: string)
    requires b != [] && b[0] != '/' && rest != [] && rest[0] != '/'
    ensures RemoteAbsToRel("disk:/" + b + rest, "disk:/" + b) == rest
  {
    assert "disk:/" + b + rest == "disk:/" + (b + rest);
    assert (b + rest)[0] == b[0];
    var a := b + rest;
    DiskSide(a);
    DiskSide(b);
    assert a[..|b|] == b && a[|b|..] == rest;
    assert StartsWith(a, b) && !StartsWith(rest, "/");
  }

  /** A `disk:` path without a second leading slash loses exactly its alias and that slash, and is no `app:` path. */
  lemma {:induction false} DiskSide(x: string)
    requires x == [] || x[0] != '/'
    ensures StripLeadingSlashes(StripAlias("disk:/" + x)) == x && !StartsWith("disk:/" + x, "app:")
  {
    StripAliasDisk("/" + x);
    assert "disk:/" + x == "disk:" + ("/" + x);
    assert ("/" + x)[1..] == x;
    if x == [] {
      assert StripLeadingSlashes("/") == StripLeadingSlashes("/"[1..]);
    }
  }

  /** With an `app:` base, the listed path of the vault folder itself maps to the empty path. */
  lemma {:induction false} RemoteAbsToRelAppFolder(s1: string, s2: string, folder: string)
    requires s1 != [] && '/' !in s1 && '/' !in s2
    requires folder != [] && folder[0] != '/'
    ensures RemoteAbsToRel("disk:/" + s1 + "/" + s2 + "/" + folder, "app:/" + folder) == []
  {
    assert "disk:/" + s1 + "/" + s2 + "/" + folder == "disk:/" + (s1 + "/" + (s2 + "/" + folder));
    AppPathSegments(s1, s2, folder);
    AppBase(folder);
  }

  /** With a `disk:` base, a path that does not start with the base comes back with only its alias and leading slash removed. */
  lemma {:induction false} RemoteAbsToRelDiskOutside(b: string, x: string)
    requires b != [] && b[0] != '/' && (x == [] || x[0] != '/') && !StartsWith(x, b)
    ensures RemoteAbsToRel("disk:/" + x, "disk:/" + b) == x
  {
    DiskSide(x);
    DiskSide(b);
  }
}
