/**
 * When the plugin writes its index file. The plugin keeps the hash of the
 * index it last wrote (or loaded) and whether it knows the file to exist;
 * `persistIndexIfNeeded` writes only when asked to, when that hash is
 * missing or stale, or when the file turns out to be missing.
 */
module IndexStore {
  import opened Common
  import opened IndexHash

  /** `!this.indexHash`: no hash, or the empty string, which is just as falsy. */
  predicate HashMissing(stored: Option<string>) {
    stored.None? || stored.value == ""
  }

  /** The index that gets hashed and written: the in-memory index when it is an object, an empty index otherwise. */
  function CurrentIndex(index: Json): (r: Json)
    ensures IsObject(r)
    ensures IsObject(index) ==> r == index
    ensures !IsObject(index) ==> FilesOf(r) == JObj([]) && LastSyncOf(r).None?
  {
    if IsObject(index) then index else IndexJson([], None)
  }

  /** The hash of `index` as `persistIndexIfNeeded` computes it. */
  function NewHash(h: Json -> string, index: Json): string {
    ComputeIndexHash(h, CurrentIndex(index))
  }

  /** What the plugin remembers about the index file: `indexHash`, `indexMeta.hash` and `_indexFileKnownExists`. */
  datatype Store = Store(indexHash: Option<string>, metaHash: Option<string>, knownExists: bool)

  /** The remembered state after a call, and whether the call tried to write the file. */
  datatype Persisted = Persisted(store: Store, writes: bool)

  /**
   * The write condition in one formula: forced, no usable stored hash, a
   * stored hash other than the new one, or a file that is not known to
   * exist and that `exists` reports missing.
   */
  predicate NeedWrite(force: bool, stored: Option<string>, newHash: string, knownExists: bool, found: bool) {
    force || HashMissing(stored) || stored.value != newHash || (!knownExists && !found)
  }

  /**
   * One call of `persistIndexIfNeeded`. `found` is what the existence check
   * would report (a missing adapter or a failing check reads as `false`);
   * `writeOk` says whether writing the file succeeds. The check is made only
   * when the hashes alone ask for no write and the file is not known to exist.
   */
  function Persist(h: Json -> string, index: Json, st: Store, force: bool, found: bool, writeOk: bool): (r: Persisted)
    ensures r.writes <==> NeedWrite(force, st.indexHash, NewHash(h, index), st.knownExists, found)
    ensures r.store.metaHash == r.store.indexHash
    ensures r.writes && writeOk ==> r.store.knownExists
    ensures !r.writes ==> r.store.knownExists == (st.knownExists || found)
  {
    var current := CurrentIndex(index);
    PersistWith(ComputeIndexHash(h, current), ComputeIndexHash(h, Payload(current)), st, force, found, writeOk)
  }

  /** `Persist` with the two hashes it needs already computed: `newHash` of the index and `written` of the payload. */
  function PersistWith(newHash: string, written: string, st: Store, force: bool, found: bool, writeOk: bool): (r: Persisted)
    ensures r.writes <==> NeedWrite(force, st.indexHash, newHash, st.knownExists, found)
  {
    var byHash := force || HashMissing(st.indexHash) || st.indexHash.value != newHash;
    var checked := !byHash && !st.knownExists;
    var known := if checked then found else st.knownExists;
    var needWrite := byHash || (checked && !found);
    if needWrite && writeOk then Persisted(Store(Some(written), Some(written), true), true)
    else Persisted(Store(Some(newHash), Some(newHash), known), needWrite)
  }

  /**
   * Whatever happens, the remembered hash afterwards is the hash of the
   * current index: the hash of the written payload equals it.
   */
  lemma {:induction false} PersistRecordsHash(h: Json -> string, index: Json, st: Store, force: bool, found: bool, writeOk: bool)
    ensures Persist(h, index, st, force, found, writeOk).store.indexHash == Some(NewHash(h, index))
  {
    var current := CurrentIndex(index);
    PayloadSameIndex(current);
    HashIgnoresOrderAndExtras(h, Payload(current), current);
  }

  /** The existence check matters only when neither `force` nor the hashes ask for a write. */
  lemma {:induction false} ExistsOnlyBreaksTies(h: Json -> string, index: Json, st: Store, force: bool, e1: bool, e2: bool, writeOk: bool)
    requires force || HashMissing(st.indexHash) || st.indexHash.value != NewHash(h, index)
    ensures Persist(h, index, st, force, e1, writeOk) == Persist(h, index, st, force, e2, writeOk)
  {
  }

  /**
   * Two calls in a row with the index unchanged: the second, unforced, call
   * writes only when the file is still not known to exist and is reported
   * missing again; in particular it writes nothing after a successful write.
   */
  lemma {:induction false} SecondCallWritesNothing(h: Json -> string, index: Json, st: Store, force: bool, e1: bool, ok1: bool, e2: bool, ok2: bool)
    requires NewHash(h, index) != ""
    ensures var r1 := Persist(h, index, st, force, e1, ok1);
      var r2 := Persist(h, index, r1.store, false, e2, ok2);
      (r2.writes <==> !r1.store.knownExists && !e2)
      && (r1.writes && ok1 ==> !r2.writes)
  {
    PersistRecordsHash(h, index, st, force, e1, ok1);
  }

  /** The plugin's fields that `persistIndexIfNeeded` reads and updates. */
  class Plugin {
    /** SHA-1 of `JSON.stringify`, which the plugin only ever applies to a canonical index. */
    const h: Json -> string
    var index: Json
    var indexHash: Option<string>
    var indexMetaHash: Option<string>
    var indexFileKnownExists: bool

    /** A fresh plugin: empty index, no hash, file not known to exist. */
    constructor (h: Json -> string)
      ensures this.h == h && index == IndexJson([], None)
      ensures indexHash.None? && indexMetaHash.None? && !indexFileKnownExists
    {
      this.h := h;
      index := IndexJson([], None);
      indexHash := None;
      indexMetaHash := None;
      indexFileKnownExists := false;
    }

    function StoreOf(): Store
      reads this
    {
      Store(indexHash, indexMetaHash, indexFileKnownExists)
    }

    /** `indexFileExists`: the answer of the adapter is remembered. */
    method IndexFileExists(found: bool) returns (r: bool)
      modifies this`indexFileKnownExists
      ensures r == found && indexFileKnownExists == found
    {
      indexFileKnownExists := found;
      r := found;
    }

    /** `writeIndexFile`: on success the file is known to exist and the hash of the payload is returned; a failure is `None`. */
    method WriteIndexFile(current: Json, writeOk: bool) returns (hash: Option<string>)
      modifies this`indexFileKnownExists
      ensures writeOk ==> hash == Some(ComputeIndexHash(h, Payload(current))) && indexFileKnownExists
      ensures !writeOk ==> hash.None? && indexFileKnownExists == old(indexFileKnownExists)
    {
      if !writeOk {
        return None;
      }
      indexFileKnownExists := true;
      hash := Some(ComputeIndexHash(h, Payload(current)));
    }

    /** The end of `persistIndexIfNeeded`: write when needed, then remember the written hash, or the new one when nothing was written. */
    method RecordHash(current: Json, newHash: string, needWrite: bool, writeOk: bool)
      modifies this`indexHash, this`indexMetaHash, this`indexFileKnownExists
      ensures indexMetaHash == indexHash
      ensures needWrite && writeOk ==> indexHash == Some(ComputeIndexHash(h, Payload(current))) && indexFileKnownExists
      ensures !(needWrite && writeOk) ==> indexHash == Some(newHash) && indexFileKnownExists == old(indexFileKnownExists)
    {
      var stored := newHash;
      if needWrite {
        var written := WriteIndexFile(current, writeOk);
        if written.Some? {
          stored := written.value;
        }
      }
      indexHash := Some(stored);
      indexMetaHash := Some(stored);
    }

    /** `persistIndexIfNeeded(force)`; `writes` says whether it tried to write the file. */
    method PersistIndexIfNeeded(force: bool, found: bool, writeOk: bool) returns (writes: bool)
      modifies this`indexHash, this`indexMetaHash, this`indexFileKnownExists
      ensures Persisted(StoreOf(), writes) == PersistWith(NewHash(h, index), ComputeIndexHash(h, Payload(CurrentIndex(index))), old(StoreOf()), force, found, writeOk)
    {
      var current := CurrentIndex(index);
      var newHash := ComputeIndexHash(h, current);
      var byHash := force || indexHash.None? || indexHash.value == "" || indexHash.value != newHash;
      writes := byHash;
      if !byHash && !indexFileKnownExists {
        var e := IndexFileExists(found);
        writes := !e;
      }
      RecordHash(current, newHash, writes, writeOk);
    }
  }
}
