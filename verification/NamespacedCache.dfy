/** The namespaced file cache of server/src/namespaced_cache.rs: entry files with timestamps, one
    directory per namespace. */
module NamespacedCache {
  import opened Basics

  /** A cache file: an entry, or something that cannot be deserialized. */
  datatype File<V> = Corrupt | Stored(timestamp: int, value: V)

  datatype CacheError = InvalidKey(key: string) | Serde | Io

  /** Whether the file system fails, other than by not finding the file, when an operation reads or
      writes. */
  datatype Faults = Faults(read: bool, write: bool)

  // ---------------------------------------------------------------------------------------------
  // Paths

  function EntryPath(base: string, namespace: string, key: string): string {
    base + "/" + namespace + "/" + key + ".json"
  }

  function LockPath(base: string, namespace: string): string {
    base + "/." + namespace + ".lock"
  }

  lemma AfterBase(base: string, s: string, t: string)
    requires base + s == base + t
    ensures s == t
  {
    assert (base + s)[|base|..] == s;
    assert (base + t)[|base|..] == t;
  }

  /** Different namespaces or keys have different files, and no entry is a namespace's lock file. */
  lemma PathsDiffer(base: string, ns: string, key: string, ns': string, key': string)
    requires SafeId(ns) && SafeId(key) && SafeId(ns') && SafeId(key')
    ensures EntryPath(base, ns, key) == EntryPath(base, ns', key') <==> ns == ns' && key == key'
    ensures LockPath(base, ns) == LockPath(base, ns') <==> ns == ns'
    ensures EntryPath(base, ns, key) != LockPath(base, ns')
  {
    if EntryPath(base, ns, key) == EntryPath(base, ns', key') {
      EntryPathParts(base, ns, key);
      EntryPathParts(base, ns', key');
      AfterBase(base + "/", ns + ['/'] + (key + ".json"), ns' + ['/'] + (key' + ".json"));
      FirstSeparator('/', ns, key + ".json", ns', key' + ".json");
      DropSuffix(key, key', ".json");
    }
    if LockPath(base, ns) == LockPath(base, ns') {
      LockPathParts(base, ns);
      LockPathParts(base, ns');
      AfterBase(base + "/.", ns + ".lock", ns' + ".lock");
      DropSuffix(ns, ns', ".lock");
    }
    assert EntryPath(base, ns, key)[|base| + 1] == ns[0];
    assert LockPath(base, ns')[|base| + 1] == '.';
  }

  lemma EntryPathParts(base: string, ns: string, key: string)
    ensures EntryPath(base, ns, key) == (base + "/") + (ns + ['/'] + (key + ".json"))
  {
  }

  lemma LockPathParts(base: string, ns: string)
    ensures LockPath(base, ns) == (base + "/.") + (ns + ".lock")
  {
  }

  lemma DropSuffix(s: string, t: string, suffix: string)
    requires s + suffix == t + suffix
    ensures s == t
  {
    assert |s + suffix| == |t + suffix|;
    assert (s + suffix)[..|s|] == s && (t + suffix)[..|t|] == t;
  }

  // ---------------------------------------------------------------------------------------------
  // Entries

  /** The file after a timestamped write that gives way to newer entries. */
  function IfNewer<V>(file: Option<File<V>>, timestamp: int, value: V): Option<File<V>> {
    if file.Some? && file.value.Stored? && file.value.timestamp > timestamp then file
    else Some(Stored(timestamp, value))
  }

  datatype Write<V> = Write(timestamp: int, value: V)

  /** A timestamped write to one key of one namespace. */
  datatype Op<V> = Op(namespace: string, key: string, write: Write<V>, faults: Faults)

  /** The operation reaches the file. */
  predicate Effective<V>(op: Op<V>) {
    SafeId(op.namespace) && SafeId(op.key) && !op.faults.read && !op.faults.write
  }

  /** The files after a timestamped write. */
  function Perform<V>(base: string, files: map<string, File<V>>, op: Op<V>): map<string, File<V>> {
    var path := EntryPath(base, op.namespace, op.key);
    if !Effective(op) then files
    else files[path := IfNewer(Lookup(files, path), op.write.timestamp, op.write.value).value]
  }

  function Lookup<K, V>(m: map<K, V>, k: K): Option<V> {
    if k in m then Some(m[k]) else None
  }

  predicate Expired(timestamp: int, now: int, maxAge: int) {
    maxAge == 0 || now - timestamp >= maxAge || now - timestamp < 0
  }

  /** A locked namespace of the cache. */
  class Namespace<V(==)> {
    const base: string
    const name: string
    var files: map<string, File<V>>

    constructor (base: string, name: string, files: map<string, File<V>>)
      ensures this.base == base && this.name == name && this.files == files
    {
      this.base, this.name, this.files := base, name, files;
    }

    /** What is stored under a key. */
    function At(key: string): Option<File<V>>
      reads this
    {
      Lookup(files, EntryPath(base, name, key))
    }

    /** A stored value, or nothing when it is missing or older than asked for. An entry from the
        future counts as too old. */
    method Get(key: string, maxAge: Option<int>, now: int, faults: Faults) returns (r: Result<Option<V>, CacheError>)
      ensures r.Err? <==> !SafeId(key) || (maxAge != Some(0) && (faults.read || At(key) == Some(Corrupt)))
      ensures r.Err? ==> r.error == if !SafeId(key) then InvalidKey(key) else if faults.read then Io else Serde
      ensures r.Ok? && r.value.Some? ==>
                exists t :: At(key) == Some(Stored(t, r.value.value)) && (maxAge.Some? ==> 0 <= now - t < maxAge.value)
      ensures r == Ok(None) ==>
                || maxAge == Some(0) || At(key) == None
                || (maxAge.Some? && At(key).value.Stored? && !(0 <= now - At(key).value.timestamp < maxAge.value))
    {
      if !SafeId(key) {
        return Err(InvalidKey(key));
      }
      if maxAge == Some(0) {
        return Ok(None);
      }
      var path := EntryPath(base, name, key);
      if faults.read {
        return Err(Io);
      }
      if path !in files {
        return Ok(None);
      }
      match files[path] {
        case Corrupt => return Err(Serde);
        case Stored(timestamp, value) =>
          if maxAge.Some? && Expired(timestamp, now, maxAge.value) {
            return Ok(None);
          }
          return Ok(Some(value));
      }
    }

    /** Writes an entry unless a newer one exists, which is then returned. A file that cannot be
        deserialized is overwritten. */
    method SetIfNewer(key: string, value: V, timestamp: int, faults: Faults) returns (r: Result<Option<V>, CacheError>)
      requires SafeId(name)
      modifies this`files
      ensures files == Perform(base, old(files), Op(name, key, Write(timestamp, value), faults))
      ensures var newer := old(At(key)).Some? && old(At(key)).value.Stored? && old(At(key)).value.timestamp > timestamp;
              && (r.Err? <==> !SafeId(key) || faults.read || (!newer && faults.write))
              && (r.Ok? ==> (r.value.Some? <==> newer))
      ensures r.Err? ==> r.error == if SafeId(key) then Io else InvalidKey(key)
      ensures r.Err? ==> files == old(files)
      ensures r == Ok(None) ==> files == old(files)[EntryPath(base, name, key) := Stored(timestamp, value)]
      ensures r.Ok? && r.value.Some? ==>
                files == old(files) && exists t :: At(key) == Some(Stored(t, r.value.value)) && t > timestamp
    {
      if !SafeId(key) {
        return Err(InvalidKey(key));
      }
      var path := EntryPath(base, name, key);
      if faults.read {
        return Err(Io);
      }
      if path in files && files[path].Stored? {
        if files[path].timestamp > timestamp {
          return Ok(Some(files[path].value));
        }
      }
      if faults.write {
        return Err(Io);
      }
      files := files[path := Stored(timestamp, value)];
      r := Ok(None);
    }

    /** Writes an entry whatever the file holds. */
    method Set(key: string, value: V, timestamp: int, faults: Faults) returns (r: Result<(), CacheError>)
      modifies this`files
      ensures r.Ok? <==> SafeId(key) && !faults.write
      ensures r.Err? ==> r.error == if SafeId(key) then Io else InvalidKey(key)
      ensures r.Err? ==> files == old(files)
      ensures r.Ok? ==> files == old(files)[EntryPath(base, name, key) := Stored(timestamp, value)]
    {
      if !SafeId(key) {
        return Err(InvalidKey(key));
      }
      if faults.write {
        return Err(Io);
      }
      files := files[EntryPath(base, name, key) := Stored(timestamp, value)];
      r := Ok(());
    }

    /** Removing a key that does not exist is no error. */
    method Remove(key: string, faults: Faults) returns (r: Result<(), CacheError>)
      modifies this`files
      ensures r.Err? <==> !SafeId(key) || faults.write
      ensures r.Err? ==> r.error == if SafeId(key) then Io else InvalidKey(key)
      ensures r.Err? ==> files == old(files)
      ensures r.Ok? ==> At(key).None?
      ensures forall p | p != EntryPath(base, name, key) :: Lookup(files, p) == old(Lookup(files, p))
    {
      if !SafeId(key) {
        return Err(InvalidKey(key));
      }
      var path := EntryPath(base, name, key);
      if faults.write {
        return Err(Io);
      }
      files := files - {path};
      r := Ok(());
    }
  }

  // ---------------------------------------------------------------------------------------------
  // Runs of timestamped writes

  function AfterWrites<V>(file: Option<File<V>>, writes: seq<Write<V>>): Option<File<V>> {
    if writes == [] then file
    else
      var n := |writes| - 1;
      IfNewer(AfterWrites(file, writes[..n]), writes[n].timestamp, writes[n].value)
  }

  /** `m` is the last of the writes with the greatest timestamp. */
  ghost predicate LastNewest<V>(writes: seq<Write<V>>, m: nat) {
    && m < |writes|
    && (forall j | 0 <= j < |writes| :: writes[j].timestamp <= writes[m].timestamp)
    && (forall j | m < j < |writes| :: writes[j].timestamp < writes[m].timestamp)
  }

  /** After any sequence of writes to a key that held nothing readable, the entry is the last write
      among those with the greatest timestamp. */
  lemma {:induction false} NewestWins<V>(file: Option<File<V>>, writes: seq<Write<V>>) returns (m: nat)
    requires file.None? || file.value.Corrupt?
    requires writes != []
    ensures LastNewest(writes, m)
    ensures AfterWrites(file, writes) == Some(Stored(writes[m].timestamp, writes[m].value))
  {
    var n := |writes| - 1;
    if n == 0 {
      assert AfterWrites(file, writes[..0]) == file;
      m := 0;
    } else {
      m := NewestWins(file, writes[..n]);
      assert writes[..n][m] == writes[m];
      assert forall j | 0 <= j < n :: writes[..n][j] == writes[j];
      if writes[m].timestamp <= writes[n].timestamp {
        m := n;
      }
    }
  }

  /** A key that held an entry behaves as if that entry had been the first write. */
  lemma {:induction false} EntryIsFirstWrite<V>(timestamp: int, value: V, writes: seq<Write<V>>)
    ensures AfterWrites(Some(Stored(timestamp, value)), writes) == AfterWrites(None, [Write(timestamp, value)] + writes)
  {
    var all := [Write(timestamp, value)] + writes;
    if writes == [] {
      assert all[..0] == [];
      assert AfterWrites<V>(None, []) == None;
    } else {
      var n := |writes| - 1;
      EntryIsFirstWrite(timestamp, value, writes[..n]);
      assert all[..n + 1] == [Write(timestamp, value)] + writes[..n];
    }
  }

  /** The stored timestamp never decreases. */
  lemma {:induction false} TimestampGrows<V>(file: Option<File<V>>, writes: seq<Write<V>>)
    requires file.Some? && file.value.Stored?
    ensures var r := AfterWrites(file, writes);
            r.Some? && r.value.Stored? && r.value.timestamp >= file.value.timestamp
  {
    if writes != [] {
      TimestampGrows(file, writes[..|writes| - 1]);
    }
  }

  function PerformAll<V>(base: string, files: map<string, File<V>>, ops: seq<Op<V>>): map<string, File<V>> {
    if ops == [] then files
    else Perform(base, PerformAll(base, files, ops[..|ops| - 1]), ops[|ops| - 1])
  }

  /** The writes of a run that reach one key of one namespace. */
  function WritesTo<V>(ops: seq<Op<V>>, ns: string, key: string): seq<Write<V>> {
    if ops == [] then []
    else
      var op := ops[|ops| - 1];
      var before := WritesTo(ops[..|ops| - 1], ns, key);
      if Effective(op) && op.namespace == ns && op.key == key then before + [op.write] else before
  }

  /** Whatever runs on any keys of any namespaces, a key sees its own writes and no others. */
  lemma {:induction false} KeySeesItsWrites<V>(base: string, files: map<string, File<V>>, ops: seq<Op<V>>, ns: string,
                                               key: string)
    requires SafeId(ns) && SafeId(key)
    ensures var path := EntryPath(base, ns, key);
            Lookup(PerformAll(base, files, ops), path) == AfterWrites(Lookup(files, path), WritesTo(ops, ns, key))
  {
    if ops != [] {
      var n := |ops| - 1;
      var op := ops[n];
      KeySeesItsWrites(base, files, ops[..n], ns, key);
      if Effective(op) {
        PathsDiffer(base, ns, key, op.namespace, op.key);
        var before := WritesTo(ops[..n], ns, key);
        assert (before + [op.write])[..|before|] == before;
      }
    }
  }

  /** After any run, a key that held nothing readable and was written to holds the last write among
      those to it with the greatest timestamp. */
  lemma NewestStored<V>(base: string, files: map<string, File<V>>, ops: seq<Op<V>>, ns: string, key: string)
    returns (m: nat)
    requires SafeId(ns) && SafeId(key) && WritesTo(ops, ns, key) != []
    requires Lookup(files, EntryPath(base, ns, key)) in {None, Some(Corrupt)}
    ensures var writes := WritesTo(ops, ns, key);
            && LastNewest(writes, m)
            && Lookup(PerformAll(base, files, ops), EntryPath(base, ns, key))
               == Some(Stored(writes[m].timestamp, writes[m].value))
  {
    KeySeesItsWrites(base, files, ops, ns, key);
    m := NewestWins(Lookup(files, EntryPath(base, ns, key)), WritesTo(ops, ns, key));
  }
}
