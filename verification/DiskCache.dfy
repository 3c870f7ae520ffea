/** The file-system store behind the cached compile: it behaves as the abstract store, with evictions in between. */
module DiskCache {
  import opened Prelude
  import opened Bytes
  import opened CompileCache
  import opened JitStore
  import L2Key
  import opened EntryCodec

  /** What the file system, the clock and the random draw answer during one compile. */
  datatype DiskEnv = DiskEnv(
    readable: bool, touchable: bool, removable: bool, writable: bool, now: nat,
    draw: nat, locked: bool, names: seq<string>, ok: set<string>)

  lemma ViewWithout(fs: Files, keys: set<string>)
    ensures View(fs - keys) == View(fs) - keys
  {
  }

  /** What a write and the eviction it triggers make of the stored bytes. */
  lemma ViewAfterPut(before: Files, key: string, value: seq<Byte>, now: nat, after: Files)
    requires forall x :: x in after ==> x in before[key := File(value, now)] && after[x] == before[key := File(value, now)][x]
    ensures View(after) == View(before)[key := value] - (before.Keys + {key} - after.Keys)
  {
  }

  /** A digest is always a key the store takes. */
  lemma KeyAccepted(sha: Hash, q: Request)
    ensures L2Key.PathOf(KeyOf(sha, q)).Some?
  {
    L2Key.DigestsNameFiles(sha(L2Key.Preimage(q)), sha(L2Key.Preimage(q)));
  }

  /** The lookup: read, and delete what does not validate. */
  method ReadDisk(sha: Hash, store: FileSystemJitStore, q: Request, key: string, e: DiskEnv)
    returns (getWorks: bool, hit: bool, deleted: bool)
    requires key == KeyOf(sha, q)
    modifies store
    ensures getWorks == e.readable && hit == (getWorks && Cached(sha, old(View(store.files)), q).Some?)
    ensures var stale := getWorks && key in old(store.files) && !hit;
            View(store.files) == if stale && deleted then old(View(store.files)) - {key} else old(View(store.files))
    ensures forall x :: x in old(store.files) && x != key ==> x in store.files
  {
    hide DecodeEntry, L2Key.Hex, L2Key.Preimage, View, L2Key.PathOf;
    KeyAccepted(sha, q);
    var found := store.Get(key, e.readable, e.now, e.touchable);
    ViewAt(old(store.files), key);
    getWorks := found.Ok?;
    hit := found.Ok? && found.value.Some? && DecodeEntry(sha, found.value.value, Params(sha, q)).Some?;
    deleted := true;
    if found.Ok? && found.value.Some? && !hit {
      ViewWithout(store.files, {key});
      var d := store.Delete(key, e.removable);
      deleted := d.Ok?;
    }
  }

  /** The write-back, with the eviction it may trigger. */
  method WriteDisk(store: FileSystemJitStore, key: string, entry: seq<Byte>, e: DiskEnv)
    returns (put: PutOutcome, evicted: set<string>)
    requires Distinct(e.names) && forall x :: x in e.names ==> x in store.files || x == key
    modifies store
    ensures put.Stores? ==> View(store.files) == old(View(store.files))[key := entry] - evicted
    ensures !put.Stores? ==> View(store.files) == old(View(store.files))
    ensures evicted != {} ==> put.Stores?
  {
    hide View, Evicted, L2Key.PathOf, Listing;
    evicted := {};
    var files := store.files;
    var written, left := store.Put(key, entry, e.now, e.writable, e.draw, e.locked, e.names, e.ok);
    put := if written.Err? then Fails else if written.value then Stores else Declines;
    if put.Stores? {
      ViewAfterPut(files, key, entry, e.now, store.files);
      evicted := files.Keys + {key} - store.files.Keys;
    }
  }

  /** Everything one compile asks of the file-system store: read, delete if stale, write on a miss. The answers are some
      weather, and the contents follow the abstract store's, less what the write evicted. */
  method AskDisk(c: Compiler, store: FileSystemJitStore, q: Request, e: DiskEnv) returns (w: Weather, evicted: set<string>)
    requires Distinct(e.names) && forall x :: x in e.names ==> x in store.files || x == KeyOf(c.sha, q)
    modifies store
    ensures View(store.files) == c.StoreAfter(old(View(store.files)), q, w) - evicted
    ensures w.getWorks == e.readable
    ensures evicted != {} ==> w.put.Stores? && c.Written(old(View(store.files)), q, w).Some?
  {
    hide DecodeEntry, Encoding, L2Key.Hex, L2Key.Preimage, View, Cached;
    evicted := {};
    var key := L2Key.ComputeL2Key(c.sha, q);
    ViewAt(store.files, key);
    var getWorks, hit, deleted := ReadDisk(c.sha, store, q, key, e);
    var put := Declines;
    var direct := Direct(c.backend, q);
    if !hit && direct.Ok? {
      var entry := EncodeEntry(c.sha, Params(c.sha, q), direct.value);
      if entry.Some? {
        put, evicted := WriteDisk(store, key, entry.value, e);
      }
    }
    w := Weather(getWorks, deleted, put);
  }

  /** One cached compile against the file-system store: the abstract compile in that weather, then the eviction. */
  method CompileOnDisk(c: Compiler, store: FileSystemJitStore, q: Request, e: DiskEnv)
    returns (r: Result<(seq<Byte>, Stage2Source), string>, w: Weather, evicted: set<string>)
    requires c.Valid() && q.bytecode in c.inUse && c.store == Some(View(store.files))
    requires Distinct(e.names) && forall x :: x in e.names ==> x in store.files || x == KeyOf(c.sha, q)
    modifies c, store
    ensures c.Valid() && c.store == Some(View(store.files))
    ensures match Direct(c.backend, q)
            case Ok(cubin) => r.Ok? && r.value.0 == cubin
            case Err(error) => r == Err(error)
    ensures View(store.files) == c.StoreAfter(old(View(store.files)), q, w) - evicted
    ensures c.stats == c.StatsAfter(old(c.stats), old(View(store.files)), q, w)
    ensures w.getWorks == e.readable
    ensures evicted != {} ==> w.put.Stores? && c.Written(old(View(store.files)), q, w).Some?
  {
    hide Honest, CollisionFree, View, KeyOf, Direct;
    hide Compiler.StoreAfter, Compiler.StatsAfter, Compiler.Written, Compiler.Hit;
    w, evicted := AskDisk(c, store, q, e);
    r := c.Compile(q, w);
    ghost var mid := c.store.value;
    HonestNothing(c.sha, c.backend, c.inUse);
    c.Disturb(evicted, map[]);
    assert mid - evicted + map[] == mid - evicted;
  }

  lemma HonestNothing(sha: Hash, backend: Backend, inUse: set<seq<Byte>>)
    ensures Honest(sha, backend, inUse, map[])
  {
  }

  lemma ViewAt(fs: Files, key: string)
    ensures key in View(fs) <==> key in fs
    ensures key in fs ==> View(fs)[key] == fs[key].bytes
  {
  }
}
