/**
 * The canonical form of the sync index that its hash is computed from
 * (`sanitizeIndexForHash`, `computeIndexHash`). JSON values are modelled
 * as a datatype; SHA-1 over `JSON.stringify` is a function parameter.
 */
module IndexHash {
  import opened Common
  import opened Records
  import opened Sorting

  /** A JSON value as the plugin holds it in memory (numbers are integers here). */
  datatype Json =
    | JNull
    | JBool(b: bool)
    | JNum(n: int)
    | JStr(str: string)
    | JArr(items: seq<Json>)
    | JObj(props: seq<(string, Json)>)

  /** `v && typeof v === 'object'`: arrays are objects too, null is neither. */
  predicate IsObject(v: Json) {
    v.JArr? || v.JObj?
  }

  function Digit(d: nat): char
    requires d < 10
  {
    "0123456789"[d]
  }

  /** The decimal spelling of `n`, the property name of an array index. */
  function NatStr(n: nat): (r: string)
    ensures r != []
    decreases n
  {
    if n < 10 then [Digit(n)] else NatStr(n / 10) + [Digit(n % 10)]
  }

  function Names(props: seq<(string, Json)>): (r: seq<string>)
    ensures |r| == |props|
  {
    seq(|props|, i requires 0 <= i < |props| => props[i].0)
  }

  /** The properties of an object; an array's are its indices, spelt in decimal. */
  function PropsOf(v: Json): seq<(string, Json)>
    requires IsObject(v)
  {
    if v.JObj? then v.props else seq(|v.items|, i requires 0 <= i < |v.items| => (NatStr(i), v.items[i]))
  }

  /** `Object.keys(v)`, each name once. */
  function Keys(v: Json): (r: seq<string>)
    requires IsObject(v)
    ensures Distinct(r)
  {
    Unique(Names(PropsOf(v)))
  }

  /** The value of the first property named `k`. */
  function LookupProp(props: seq<(string, Json)>, k: string): (r: Option<Json>)
    ensures r.Some? <==> k in Names(props)
    ensures r.Some? ==> (k, r.value) in props
  {
    if props == [] then None
    else
      assert Names(props) == [props[0].0] + Names(props[1..]);
      if props[0].0 == k then Some(props[0].1)
      else LookupProp(props[1..], k)
  }

  /** `v[k]` for an object `v`; nothing for any other value. */
  function Field(v: Json, k: string): (r: Option<Json>)
    ensures !IsObject(v) ==> r.None?
  {
    if IsObject(v) then LookupProp(PropsOf(v), k) else None
  }

  /** An object has a value for `k` exactly when `k` is one of its keys. */
  lemma {:induction false} FieldKeys(v: Json, k: string)
    requires IsObject(v)
    ensures Field(v, k).Some? <==> k in Keys(v)
  {
  }

  /** `lastSyncAt` when it is a string. */
  function LastSyncOf(index: Json): Option<string> {
    var f := Field(index, "lastSyncAt");
    if f.Some? && f.value.JStr? then Some(f.value.str) else None
  }

  /** `files` when it is an object, else an empty object. */
  function FilesOf(index: Json): (r: Json)
    ensures IsObject(r)
  {
    var f := Field(index, "files");
    if f.Some? && IsObject(f.value) then f.value else JObj([])
  }

  /** The path `rel` of the files object carries an entry the canonical form keeps. */
  predicate KeptEntry(files: Json, rel: string) {
    var e := Field(files, rel);
    e.Some? && IsObject(e.value)
  }

  /** An entry with its properties in sorted name order. */
  function SortedEntry(entry: Json): (r: seq<(string, Json)>)
    requires IsObject(entry)
    ensures |r| == |Sort(Keys(entry))|
  {
    var ks := Sort(Keys(entry));
    seq(|ks|, i requires 0 <= i < |ks| =>
      assert ks[i] in multiset(Keys(entry));
      FieldKeys(entry, ks[i]);
      (ks[i], Field(entry, ks[i]).value))
  }

  lemma {:induction false} SortedEntryNames(entry: Json)
    requires IsObject(entry)
    ensures Names(SortedEntry(entry)) == Sort(Keys(entry))
  {
  }

  /** The kept entries of `files` for the paths `rels`, in that order. */
  function SanitizedFiles(files: Json, rels: seq<string>): (r: seq<(string, Json)>)
    ensures forall i :: 0 <= i < |r| ==> r[i].0 in rels && KeptEntry(files, r[i].0)
  {
    if rels == [] then []
    else
      var rest := SanitizedFiles(files, rels[..|rels| - 1]);
      var rel := rels[|rels| - 1];
      if KeptEntry(files, rel) then rest + [(rel, JObj(SortedEntry(Field(files, rel).value)))] else rest
  }

  /** `sanitizeIndexForHash`. */
  function Sanitize(index: Json): Json {
    var last := LastSyncOf(index);
    var files := FilesOf(index);
    JObj([("lastSyncAt", if last.Some? then JStr(last.value) else JNull),
          ("files", JObj(SanitizedFiles(files, Sort(Keys(files)))))])
  }

  /** `computeIndexHash`: the digest of the canonical form under the hash `h`. */
  function ComputeIndexHash(h: Json -> string, index: Json): string {
    h(Sanitize(index))
  }

  // ---------------------------------------------------------------- what the canonical form keeps

  lemma {:induction false} SanitizedFilesNames(files: Json, rels: seq<string>)
    ensures forall r :: r in Names(SanitizedFiles(files, rels)) <==> r in rels && KeptEntry(files, r)
  {
    if rels != [] {
      var p := rels[..|rels| - 1];
      var rel := rels[|rels| - 1];
      assert rels == p + [rel];
      SanitizedFilesNames(files, p);
      SanitizedNamesSnoc(files, rels);
    }
  }

  /** Each kept path carries its entry with the properties sorted. */
  lemma {:induction false} SanitizedFilesValues(files: Json, rels: seq<string>)
    ensures forall i :: 0 <= i < |SanitizedFiles(files, rels)| ==>
      SanitizedFiles(files, rels)[i].1 == JObj(SortedEntry(Field(files, SanitizedFiles(files, rels)[i].0).value))
  {
    if rels != [] {
      var p := rels[..|rels| - 1];
      SanitizedFilesValues(files, p);
    }
  }

  /** The names of `SanitizedFiles` keep the order of `rels`. */
  lemma {:induction false} SanitizedFilesSorted(files: Json, rels: seq<string>)
    requires StrictlySorted(rels)
    ensures StrictlySorted(Names(SanitizedFiles(files, rels)))
  {
    if rels != [] {
      var p := rels[..|rels| - 1];
      var rel := rels[|rels| - 1];
      assert StrictlySorted(p);
      SanitizedFilesSorted(files, p);
      SanitizedFilesNames(files, p);
      SanitizedNamesSnoc(files, rels);
      if KeptEntry(files, rel) {
        SortedSnoc(Names(SanitizedFiles(files, p)), rels);
      }
    }
  }

  lemma {:induction false} SanitizedNamesSnoc(files: Json, rels: seq<string>)
    requires rels != []
    ensures var rel := rels[|rels| - 1];
      Names(SanitizedFiles(files, rels)) == Names(SanitizedFiles(files, rels[..|rels| - 1])) + if KeptEntry(files, rel) then [rel] else []
  {
    var rel := rels[|rels| - 1];
    var rest := SanitizedFiles(files, rels[..|rels| - 1]);
    if KeptEntry(files, rel) {
      NamesSnoc(rest, (rel, JObj(SortedEntry(Field(files, rel).value))));
    } else {
      assert Names(rest) + [] == Names(rest);
    }
  }

  lemma {:induction false} NamesSnoc(props: seq<(string, Json)>, p: (string, Json))
    ensures Names(props + [p]) == Names(props) + [p.0]
  {
    var a, b := Names(props + [p]), Names(props) + [p.0];
    assert forall i :: 0 <= i < |a| ==> a[i] == b[i];
  }

  /** Names drawn from a sorted list's front stay sorted with its last name after them. */
  lemma {:induction false} SortedSnoc(n: seq<string>, rels: seq<string>)
    requires rels != [] && StrictlySorted(rels) && StrictlySorted(n)
    requires forall x :: x in n ==> x in rels[..|rels| - 1]
    ensures StrictlySorted(n + [rels[|rels| - 1]])
  {
    var p, rel := rels[..|rels| - 1], rels[|rels| - 1];
    var m := n + [rel];
    forall i, j | 0 <= i < j < |m|
      ensures Less(m[i], m[j])
    {
      if j == |n| {
        assert m[i] == n[i] && n[i] in n;
        var k :| 0 <= k < |p| && p[k] == n[i];
        assert rels[k] == n[i];
      }
    }
  }

  /** A sorted entry has the entry's properties, each once, in strictly increasing name order, with their values. */
  lemma {:induction false} SortedEntryShape(entry: Json)
    requires IsObject(entry)
    ensures StrictlySorted(Names(SortedEntry(entry)))
    ensures forall k :: k in Names(SortedEntry(entry)) <==> k in Keys(entry)
    ensures forall j :: 0 <= j < |SortedEntry(entry)| ==> Field(entry, SortedEntry(entry)[j].0) == Some(SortedEntry(entry)[j].1)
  {
    SortedEntryNames(entry);
    SortStrict(Keys(entry));
    forall k
      ensures k in Sort(Keys(entry)) <==> k in Keys(entry)
    {
      assert k in Sort(Keys(entry)) <==> k in multiset(Sort(Keys(entry)));
      assert k in Keys(entry) <==> k in multiset(Keys(entry));
    }
  }

  /**
   * The canonical form has exactly the properties `lastSyncAt` (the string,
   * or null for anything else) and `files`.
   */
  lemma {:induction false} SanitizeTop(index: Json)
    ensures var c := Sanitize(index); c.JObj? && Names(c.props) == ["lastSyncAt", "files"]
    ensures var v := Sanitize(index).props[0].1;
      (LastSyncOf(index).Some? ==> v == JStr(LastSyncOf(index).value)) && (LastSyncOf(index).None? ==> v == JNull)
  {
    var c := Sanitize(index);
    assert Names(c.props) == [c.props[0].0, c.props[1].0];
  }

  /**
   * The canonical `files` holds, in strictly increasing order, exactly the
   * paths whose entry is an object, and each of them carries that entry
   * with its properties sorted.
   */
  lemma {:induction false} SanitizeFiles(index: Json)
    ensures var fs := Sanitize(index).props[1].1;
      fs.JObj? && StrictlySorted(Names(fs.props))
      && (forall rel :: rel in Names(fs.props) <==> KeptEntry(FilesOf(index), rel))
      && forall i :: 0 <= i < |fs.props| ==> fs.props[i].1 == JObj(SortedEntry(Field(FilesOf(index), fs.props[i].0).value))
  {
    var files := FilesOf(index);
    var rels := Sort(Keys(files));
    SortStrict(Keys(files));
    SanitizedFilesSorted(files, rels);
    SanitizedFilesNames(files, rels);
    SanitizedFilesValues(files, rels);
    var fs := SanitizedFiles(files, rels);
    forall rel
      ensures rel in Names(fs) <==> KeptEntry(files, rel)
    {
      if KeptEntry(files, rel) {
        FieldKeys(files, rel);
        assert rel in multiset(Keys(files));
      }
    }
  }

  // ---------------------------------------------------------------- independence of key order

  /** Two objects have the same properties with the same values, in whatever order. */
  ghost predicate SameProps(x: Json, y: Json)
    requires IsObject(x) && IsObject(y)
  {
    (forall k :: k in Keys(x) <==> k in Keys(y))
    && forall k :: k in Keys(x) ==> Field(x, k) == Field(y, k)
  }

  /**
   * Two indexes agree on everything the canonical form reads: the string
   * value of `lastSyncAt`, which paths of `files` carry object entries,
   * and those entries up to property order.
   */
  ghost predicate SameIndex(a: Json, b: Json) {
    LastSyncOf(a) == LastSyncOf(b)
    && (forall rel :: KeptEntry(FilesOf(a), rel) <==> KeptEntry(FilesOf(b), rel))
    && forall rel :: KeptEntry(FilesOf(a), rel) ==> SameProps(Field(FilesOf(a), rel).value, Field(FilesOf(b), rel).value)
  }

  lemma {:induction false} SameSetSameMultiset(a: seq<string>, b: seq<string>)
    requires Distinct(a) && Distinct(b)
    requires forall x :: x in a <==> x in b
    ensures multiset(a) == multiset(b)
  {
    forall x
      ensures multiset(a)[x] == multiset(b)[x]
    {
      if x in a {
        DistinctMultiset(a, x);
        DistinctMultiset(b, x);
      }
    }
  }

  /** Sorting the names of two objects with the same names gives the same sequence. */
  lemma {:induction false} SortSameSet(a: seq<string>, b: seq<string>)
    requires Distinct(a) && Distinct(b)
    requires forall x :: x in a <==> x in b
    ensures Sort(a) == Sort(b)
  {
    SameSetSameMultiset(a, b);
    SortStrict(a);
    SortStrict(b);
    StrictlySortedUnique(Sort(a), Sort(b));
  }

  lemma {:induction false} SortedEntrySame(x: Json, y: Json)
    requires IsObject(x) && IsObject(y) && SameProps(x, y)
    ensures SortedEntry(x) == SortedEntry(y)
  {
    SortSameSet(Keys(x), Keys(y));
    var ks := Sort(Keys(x));
    forall i | 0 <= i < |ks|
      ensures ks[i] in Keys(x)
    {
      assert ks[i] in multiset(Keys(x));
    }
  }

  /** Strictly increasing sequences with the same members are equal. */
  lemma {:induction false} StrictlySortedSameSet(a: seq<string>, b: seq<string>)
    requires StrictlySorted(a) && StrictlySorted(b)
    requires forall x :: x in a <==> x in b
    ensures a == b
  {
    forall i, j | 0 <= i < j < |a|
      ensures a[i] != a[j]
    {
      LessIrreflexive(a[i]);
    }
    forall i, j | 0 <= i < j < |b|
      ensures b[i] != b[j]
    {
      LessIrreflexive(b[i]);
    }
    SameSetSameMultiset(a, b);
    StrictlySortedUnique(a, b);
  }

  /** Entries the canonical form keeps for the same paths, equal up to property order, give the same files object. */
  lemma {:induction false} SanitizedFilesSame(fa: Json, fb: Json)
    requires IsObject(fa) && IsObject(fb)
    requires forall rel :: KeptEntry(fb, rel) ==> KeptEntry(fa, rel)
    requires forall rel :: KeptEntry(fa, rel) ==> KeptEntry(fb, rel) && SameProps(Field(fa, rel).value, Field(fb, rel).value)
    ensures SanitizedFiles(fa, Sort(Keys(fa))) == SanitizedFiles(fb, Sort(Keys(fb)))
  {
    var ra, rb := Sort(Keys(fa)), Sort(Keys(fb));
    var sa, sb := SanitizedFiles(fa, ra), SanitizedFiles(fb, rb);
    SortStrict(Keys(fa));
    SortStrict(Keys(fb));
    SanitizedFilesSorted(fa, ra);
    SanitizedFilesSorted(fb, rb);
    SanitizedFilesNames(fa, ra);
    SanitizedFilesNames(fb, rb);
    SanitizedFilesValues(fa, ra);
    SanitizedFilesValues(fb, rb);
    forall rel
      ensures rel in Names(sa) <==> rel in Names(sb)
    {
      if KeptEntry(fa, rel) {
        assert rel in multiset(Keys(fa));
        assert rel in multiset(Keys(fb));
      }
    }
    StrictlySortedSameSet(Names(sa), Names(sb));
    assert |sa| == |sb|;
    forall i | 0 <= i < |sa|
      ensures sa[i] == sb[i]
    {
      assert Names(sa)[i] == Names(sb)[i];
      var rel := sa[i].0;
      SortedEntrySame(Field(fa, rel).value, Field(fb, rel).value);
    }
  }

  /** The canonical form depends only on what `SameIndex` compares. */
  lemma {:induction false} SanitizeSame(a: Json, b: Json)
    requires SameIndex(a, b)
    ensures Sanitize(a) == Sanitize(b)
  {
    SanitizedFilesSame(FilesOf(a), FilesOf(b));
  }

  /**
   * Two indexes that differ only in property order, in non-object entries,
   * in a non-string `lastSyncAt` or in other top-level fields get the same
   * hash, whatever the hash function.
   */
  lemma {:induction false} HashIgnoresOrderAndExtras(h: Json -> string, a: Json, b: Json)
    requires SameIndex(a, b)
    ensures ComputeIndexHash(h, a) == ComputeIndexHash(h, b)
  {
    SanitizeSame(a, b);
  }

  // ---------------------------------------------------------------- the index the sync engine writes

  const IndexFileVersion := 1

  /** An index entry as the rebuild writes it; an absent revision is left out, as `JSON.stringify` drops `undefined`. */
  function EntryJson(e: IndexEntry): Json {
    JObj([("localMtime", JNum(e.localMtime)), ("localSize", JNum(e.localSize)), ("remoteModified", JNum(e.remoteModified))]
      + (if e.remoteRevision.Some? then [("remoteRevision", JStr(e.remoteRevision.value))] else []))
  }

  function FilesJson(files: IndexFiles): (r: seq<(string, Json)>)
    ensures |r| == |files| && forall i :: 0 <= i < |r| ==> r[i] == (files[i].0, EntryJson(files[i].1))
  {
    if files == [] then [] else [(files[0].0, EntryJson(files[0].1))] + FilesJson(files[1..])
  }

  /** `{ files, lastSyncAt }` in memory. */
  function IndexJson(files: IndexFiles, lastSyncAt: Option<string>): Json {
    JObj([("files", JObj(FilesJson(files))), ("lastSyncAt", if lastSyncAt.Some? then JStr(lastSyncAt.value) else JNull)])
  }

  /** The object `writeIndexFile` serialises: a version, `lastSyncAt` when a string, and a copy of `files`. */
  function Payload(index: Json): Json {
    var last := LastSyncOf(index);
    JObj([("version", JNum(IndexFileVersion)), ("lastSyncAt", if last.Some? then JStr(last.value) else JNull), ("files", CopyFiles(FilesOf(index)))])
  }

  /** `{ ...files }`: one property per key, with the value found under it. */
  function CopyFiles(src: Json): (r: Json)
    requires IsObject(src)
    ensures r.JObj? && Names(r.props) == Keys(src)
  {
    var ks := Keys(src);
    JObj(seq(|ks|, i requires 0 <= i < |ks| => (ks[i], Field(src, ks[i]).value)))
  }

  /** The payload's three top-level properties are read back as written. */
  lemma {:induction false} PayloadShape(index: Json)
    ensures var p := Payload(index);
      p.JObj? && |p.props| == 3 && FilesOf(p) == p.props[2].1 && LastSyncOf(p) == LastSyncOf(index)
  {
    var p := Payload(index);
    assert Names(p.props) == ["version", "lastSyncAt", "files"] by {
      assert Names(p.props) == [p.props[0].0] + Names(p.props[1..]);
      assert Names(p.props[1..]) == [p.props[1].0] + Names(p.props[2..]);
      assert Names(p.props[2..]) == [p.props[2].0] + Names(p.props[3..]);
    }
    assert LookupProp(p.props, "files") == Some(p.props[2].1);
    assert LookupProp(p.props, "lastSyncAt") == Some(p.props[1].1);
  }

  /** The copied files object has the same field under every path. */
  lemma {:induction false} PayloadFields(index: Json, rel: string)
    ensures Field(Payload(index).props[2].1, rel) == Field(FilesOf(index), rel)
  {
    CopyFields(FilesOf(index), rel);
  }

  /** The copy has the same field as the original under every path. */
  lemma {:induction false} CopyFields(src: Json, rel: string)
    requires IsObject(src)
    ensures Field(CopyFiles(src), rel) == Field(src, rel)
  {
    var ks := Keys(src);
    var copy := CopyFiles(src);
    if rel in ks {
      var i :| 0 <= i < |ks| && ks[i] == rel;
      CopyLookup(copy.props, ks, i);
      assert Field(copy, rel) == Some(copy.props[i].1);
    } else {
      FieldKeys(src, rel);
    }
  }

  /** The hash `writeIndexFile` returns is the hash of the index it was given. */
  lemma {:induction false} PayloadSameIndex(index: Json)
    ensures SameIndex(Payload(index), index)
  {
    var p := Payload(index);
    PayloadShape(index);
    forall rel
      ensures Field(FilesOf(p), rel) == Field(FilesOf(index), rel)
    {
      PayloadFields(index, rel);
    }
    SameIndexByFields(p, index);
  }

  /** Indexes with the same `lastSyncAt` and the same field under every path of `files` are the same index. */
  lemma {:induction false} SameIndexByFields(a: Json, b: Json)
    requires LastSyncOf(a) == LastSyncOf(b)
    requires forall rel :: Field(FilesOf(a), rel) == Field(FilesOf(b), rel)
    ensures SameIndex(a, b)
  {
    var fa, fb := FilesOf(a), FilesOf(b);
    forall rel
      ensures KeptEntry(fa, rel) <==> KeptEntry(fb, rel)
    {
      assert Field(fa, rel) == Field(fb, rel);
    }
    forall rel | KeptEntry(fa, rel)
      ensures SameProps(Field(fa, rel).value, Field(fb, rel).value)
    {
      assert Field(fa, rel) == Field(fb, rel);
    }
  }

  lemma {:induction false} CopyLookup(props: seq<(string, Json)>, ks: seq<string>, i: int)
    requires Names(props) == ks && Distinct(ks) && 0 <= i < |ks|
    ensures LookupProp(props, ks[i]) == Some(props[i].1)
  {
    if i > 0 {
      assert props[0].0 == ks[0] != ks[i];
      assert Names(props[1..]) == ks[1..];
      CopyLookup(props[1..], ks[1..], i - 1);
    }
  }
}
