/** Compiling through the persistent cubin cache. */
module CompileCache {
  import opened Prelude
  import opened Bytes
  import opened EntryCodec
  import L2Key

  /** What the compiler is asked for. */
  type Request = L2Key.Request

  /** A deterministic compiler: its output depends on the executable (its fingerprint), the bytecode, the target and
      the options. */
  type Backend = (seq<Byte>, seq<Byte>, seq<Byte>, L2Key.TileirasOptions) -> Result<seq<Byte>, string>

  type Store = map<string, seq<Byte>>

  datatype Stage2Source = Tileiras | DiskCache(key: string)

  datatype Stats = Stats(hits: nat, misses: nat, puts: nat, bytesWritten: nat, ioErrors: nat)

  datatype PutOutcome = Fails | Declines | Stores

  /** How the store answers the calls one compile makes. */
  datatype Weather = Weather(getWorks: bool, deleteWorks: bool, put: PutOutcome)

  function Direct(backend: Backend, q: Request): Result<seq<Byte>, string> {
    backend(q.fingerprint, q.bytecode, q.gpuName, q.opts)
  }

  function Params(sha: Hash, q: Request): EntryParams {
    EntryParams(sha(q.bytecode), q.gpuName, q.opts.optLevel, q.opts.FlagsByte(), q.fingerprint)
  }

  function KeyOf(sha: Hash, q: Request): string { L2Key.Hex(sha(L2Key.Preimage(q))) }

  /** The hash does not collide on the bytecodes in use. */
  ghost predicate CollisionFree(sha: Hash, inUse: set<seq<Byte>>) {
    forall a, b :: a in inUse && b in inUse && sha(a) == sha(b) ==> a == b
  }

  /** `bytes` serves no request for the bytecodes in use with anything but the compiler's own output. */
  ghost predicate HonestEntry(sha: Hash, backend: Backend, inUse: set<seq<Byte>>, bytes: seq<Byte>) {
    forall q: Request :: q.bytecode in inUse && DecodeEntry(sha, bytes, Params(sha, q)).Some?
      ==> Direct(backend, q) == Ok(DecodeEntry(sha, bytes, Params(sha, q)).value)
  }

  ghost predicate Honest(sha: Hash, backend: Backend, inUse: set<seq<Byte>>, store: Store) {
    forall k :: k in store ==> HonestEntry(sha, backend, inUse, store[k])
  }

  function Cached(sha: Hash, store: Store, q: Request): Option<seq<Byte>> {
    var key := KeyOf(sha, q);
    if key in store then DecodeEntry(sha, store[key], Params(sha, q)) else None
  }

  lemma DecodedIsShort(sha: Hash, b: seq<Byte>, p: EntryParams)
    requires DecodeEntry(sha, b, p).Some?
    ensures |b| < U64
  {
  }

  /** A written entry is served to its own request only, and gives back what was written. */
  lemma EntryServes(sha: Hash, p: EntryParams, c: seq<Byte>, q: EntryParams)
    requires Encodable(p) && DecodeEntry(sha, Encoding(sha, p, c), q).Some?
    ensures p == q && DecodeEntry(sha, Encoding(sha, p, c), q) == Some(c)
  {
    DecodedIsShort(sha, Encoding(sha, p, c), q);
    hide DecodeEntry, Encoding;
    RoundTrip(sha, p, c);
    OneRequest(sha, Encoding(sha, p, c), p, q);
  }

  /** What a compile writes is honest. */
  lemma WrittenIsHonest(sha: Hash, backend: Backend, inUse: set<seq<Byte>>, q: Request, c: seq<Byte>)
    requires CollisionFree(sha, inUse) && q.bytecode in inUse
    requires Direct(backend, q) == Ok(c) && Encodable(Params(sha, q))
    ensures HonestEntry(sha, backend, inUse, Encoding(sha, Params(sha, q), c))
  {
    hide DecodeEntry, Encoding, Encodable;
    var e := Encoding(sha, Params(sha, q), c);
    forall r: Request | r.bytecode in inUse && DecodeEntry(sha, e, Params(sha, r)).Some?
      ensures Direct(backend, r) == Ok(DecodeEntry(sha, e, Params(sha, r)).value)
    {
      EntryServes(sha, Params(sha, q), c, Params(sha, r));
      L2Key.FlagsInjective(q.opts, r.opts);
      assert q.bytecode == r.bytecode;
    }
  }

  lemma HonestWithout(sha: Hash, backend: Backend, inUse: set<seq<Byte>>, store: Store, keys: set<string>)
    requires Honest(sha, backend, inUse, store)
    ensures Honest(sha, backend, inUse, store - keys)
  {
  }

  lemma HonestWith(sha: Hash, backend: Backend, inUse: set<seq<Byte>>, store: Store, key: string, bytes: seq<Byte>)
    requires Honest(sha, backend, inUse, store) && HonestEntry(sha, backend, inUse, bytes)
    ensures Honest(sha, backend, inUse, store[key := bytes])
  {
  }

  lemma HonestHit(sha: Hash, backend: Backend, inUse: set<seq<Byte>>, store: Store, q: Request)
    requires Honest(sha, backend, inUse, store) && q.bytecode in inUse && Cached(sha, store, q).Some?
    ensures Direct(backend, q) == Ok(Cached(sha, store, q).value)
  {
    assert HonestEntry(sha, backend, inUse, store[KeyOf(sha, q)]);
  }

  /** After a store, the same request is a hit. */
  lemma StoredThenHit(sha: Hash, store: Store, q: Request, c: seq<Byte>)
    requires Encodable(Params(sha, q)) && |Encoding(sha, Params(sha, q), c)| < U64
    ensures Cached(sha, store[KeyOf(sha, q) := Encoding(sha, Params(sha, q), c)], q) == Some(c)
  {
    RoundTrip(sha, Params(sha, q), c);
  }

  class Compiler {
    const sha: Hash
    const backend: Backend
    ghost const inUse: set<seq<Byte>>
    var store: Option<Store>
    var stats: Stats
    var compiles: nat

    constructor (sha: Hash, backend: Backend, ghost inUse: set<seq<Byte>>, store: Option<Store>)
      requires CollisionFree(sha, inUse) && (store.Some? ==> Honest(sha, backend, inUse, store.value))
      ensures Valid() && this.sha == sha && this.backend == backend && this.inUse == inUse && this.store == store
      ensures stats == Stats(0, 0, 0, 0, 0) && compiles == 0
    {
      this.sha, this.backend, this.inUse, this.store := sha, backend, inUse, store;
      stats, compiles := Stats(0, 0, 0, 0, 0), 0;
    }

    ghost predicate Valid()
      reads this
    {
      CollisionFree(sha, inUse) && (store.Some? ==> Honest(sha, backend, inUse, store.value))
    }

    method RunTileiras(q: Request) returns (r: Result<seq<Byte>, string>)
      modifies this`compiles
      ensures r == Direct(backend, q)
      ensures compiles == old(compiles) + if r.Ok? then 1 else 0
    {
      r := backend(q.fingerprint, q.bytecode, q.gpuName, q.opts);
      if r.Ok? {
        compiles := compiles + 1;
      }
    }

    /** The cached compile gives what the direct compile gives, whatever the store does. */
    method Compile(q: Request, w: Weather) returns (r: Result<(seq<Byte>, Stage2Source), string>)
      requires Valid() && q.bytecode in inUse
      modifies this
      ensures Valid()
      ensures match Direct(backend, q)
              case Ok(c) => r.Ok? && r.value.0 == c
              case Err(e) => r == Err(e)
      ensures old(store).None? ==> store.None? && stats == old(stats)
      ensures old(store).Some? ==>
                store == Some(StoreAfter(old(store).value, q, w)) && stats == StatsAfter(old(stats), old(store).value, q, w)
      ensures old(store).Some? && Hit(old(store).value, q, w)
              ==> r.Ok? && r.value.1 == DiskCache(KeyOf(sha, q)) && compiles == old(compiles)
      ensures old(store).None? || !Hit(old(store).value, q, w)
              ==> (r.Ok? ==> r.value.1 == Tileiras) && compiles == old(compiles) + if r.Ok? then 1 else 0
    {
      hide DecodeEntry, Encoding, L2Key.Hex, L2Key.Preimage, Honest, HonestEntry, CollisionFree;
      if store.None? {
        var c := RunTileiras(q);
        return if c.Ok? then Ok((c.value, Tileiras)) else Err(c.error);
      }
      var key := L2Key.ComputeL2Key(sha, q);
      var found := Lookup(q, key, w);
      if found.Some? {
        return Ok((found.value, DiskCache(key)));
      }
      var c := RunTileiras(q);
      if c.Err? {
        return Err(c.error);
      }
      WriteBack(q, key, c.value, w);
      return Ok((c.value, Tileiras));
    }

    /** Asks the store, and drops what does not validate. */
    method Lookup(q: Request, key: string, w: Weather) returns (found: Option<seq<Byte>>)
      requires Valid() && q.bytecode in inUse && store.Some? && key == KeyOf(sha, q)
      modifies this`store, this`stats
      ensures Valid() && store.Some?
      ensures found == if w.getWorks then Cached(sha, old(store).value, q) else None
      ensures found.Some? ==> Direct(backend, q) == Ok(found.value)
      ensures var stale := Stale(old(store).value, q, w);
              && store.value == (if stale && w.deleteWorks then old(store).value - {key} else old(store).value)
              && stats == old(stats).(
                            hits := old(stats).hits + Count(found.Some?), misses := old(stats).misses + Count(found.None?),
                            ioErrors := old(stats).ioErrors + Count(!w.getWorks) + Count(stale && !w.deleteWorks))
    {
      hide DecodeEntry, L2Key.Hex, L2Key.Preimage, Honest, CollisionFree;
      var files := store.value;
      var params := EntryParams(sha(q.bytecode), q.gpuName, q.opts.optLevel, q.opts.FlagsByte(), q.fingerprint);
      found := None;
      if !w.getWorks {
        stats := stats.(ioErrors := stats.ioErrors + 1);
      } else if key in files {
        found := DecodeEntry(sha, files[key], params);
        if found.Some? {
          stats := stats.(hits := stats.hits + 1);
          HonestHit(sha, backend, inUse, files, q);
          return;
        }
        if w.deleteWorks {
          HonestWithout(sha, backend, inUse, files, {key});
          store := Some(files - {key});
        } else {
          stats := stats.(ioErrors := stats.ioErrors + 1);
        }
      }
      stats := stats.(misses := stats.misses + 1);
    }

    /** Offers the compiler's output to the store, if the entry format has room for its names. */
    method WriteBack(q: Request, key: string, cubin: seq<Byte>, w: Weather)
      requires Valid() && q.bytecode in inUse && store.Some? && Direct(backend, q) == Ok(cubin)
      modifies this`store, this`stats
      ensures Valid() && store.Some?
      ensures var e := if Encodable(Params(sha, q)) then Some(Encoding(sha, Params(sha, q), cubin)) else None;
              && store.value == (if e.Some? && w.put.Stores? then old(store).value[key := e.value] else old(store).value)
              && stats == old(stats).(
                            puts := old(stats).puts + Count(e.Some? && !w.put.Fails?),
                            bytesWritten := old(stats).bytesWritten + (if e.Some? && !w.put.Fails? then |e.value| else 0),
                            ioErrors := old(stats).ioErrors + Count(e.Some? && w.put.Fails?))
    {
      hide Encoding, Honest, HonestEntry, CollisionFree, Encodable, Direct;
      var entry := EncodeEntry(sha, Params(sha, q), cubin);
      if entry.Some? {
        WrittenIsHonest(sha, backend, inUse, q, cubin);
        HonestWith(sha, backend, inUse, store.value, key, entry.value);
        match w.put {
          case Fails => stats := stats.(ioErrors := stats.ioErrors + 1);
          case Declines => stats := stats.(puts := stats.puts + 1, bytesWritten := stats.bytesWritten + |entry.value|);
          case Stores =>
            store := Some(store.value[key := entry.value]);
            stats := stats.(puts := stats.puts + 1, bytesWritten := stats.bytesWritten + |entry.value|);
        }
      }
    }

    predicate Hit(files: Store, q: Request, w: Weather) { w.getWorks && Cached(sha, files, q).Some? }

    /** An entry under the key that does not validate. */
    predicate Stale(files: Store, q: Request, w: Weather) {
      w.getWorks && KeyOf(sha, q) in files && Cached(sha, files, q).None?
    }

    /** The entry a miss tries to write, if any. */
    function Written(files: Store, q: Request, w: Weather): Option<seq<Byte>> {
      if !Hit(files, q, w) && Direct(backend, q).Ok? && Encodable(Params(sha, q))
      then Some(Encoding(sha, Params(sha, q), Direct(backend, q).value))
      else None
    }

    ghost function StoreAfter(files: Store, q: Request, w: Weather): Store {
      var kept := if Stale(files, q, w) && w.deleteWorks then files - {KeyOf(sha, q)} else files;
      if Written(files, q, w).Some? && w.put.Stores? then kept[KeyOf(sha, q) := Written(files, q, w).value] else kept
    }

    ghost function StatsAfter(s: Stats, files: Store, q: Request, w: Weather): Stats {
      var hit, e := Hit(files, q, w), Written(files, q, w);
      Stats(
        s.hits + Count(hit),
        s.misses + Count(!hit),
        s.puts + Count(e.Some? && !w.put.Fails?),
        s.bytesWritten + (if e.Some? && !w.put.Fails? then |e.value| else 0),
        s.ioErrors + Count(!w.getWorks) + Count(Stale(files, q, w) && !w.deleteWorks) + Count(e.Some? && w.put.Fails?))
    }

    /** The store and the counters after one compile, for each way the lookup and the write-back can go: a valid entry is a
        hit and changes nothing; otherwise an invalid entry is deleted if it can be, and what the compiler gives is written
        under the key if it fits the format and the store takes it. No other key is touched. */
    lemma CompileEffects(s: Stats, files: Store, q: Request, w: Weather)
      ensures var key := KeyOf(sha, q);
              var hit := w.getWorks && key in files && DecodeEntry(sha, files[key], Params(sha, q)).Some?;
              var offered := !hit && Direct(backend, q).Ok? && Encodable(Params(sha, q));
              var after, t := StoreAfter(files, q, w), StatsAfter(s, files, q, w);
              && (hit <==> Hit(files, q, w))
              && (forall k :: k != key ==> (k in after <==> k in files) && (k in files ==> after[k] == files[k]))
              && (hit ==> after == files && t == s.(hits := s.hits + 1))
              && (!hit ==> t.hits == s.hits && t.misses == s.misses + 1)
              && (offered && w.put.Stores? ==>
                    key in after && after[key] == Encoding(sha, Params(sha, q), Direct(backend, q).value))
              && (!hit && !(offered && w.put.Stores?) ==>
                    if w.getWorks && w.deleteWorks then key !in after
                    else (key in after <==> key in files) && (key in files ==> after[key] == files[key]))
              && t.puts == s.puts + (if offered && !w.put.Fails? then 1 else 0)
              && t.bytesWritten == s.bytesWritten
                 + (if offered && !w.put.Fails? then |Encoding(sha, Params(sha, q), Direct(backend, q).value)| else 0)
              && t.ioErrors == s.ioErrors + (if !w.getWorks then 1 else 0)
                 + (if w.getWorks && key in files && !hit && !w.deleteWorks then 1 else 0)
                 + (if offered && w.put.Fails? then 1 else 0)
    {
      hide DecodeEntry, Encoding, L2Key.Hex, L2Key.Preimage, Encodable, Direct, Params;
    }

    /** Each lookup is a hit or a miss. */
    lemma OneLookup(s: Stats, files: Store, q: Request, w: Weather)
      ensures StatsAfter(s, files, q, w).hits + StatsAfter(s, files, q, w).misses == s.hits + s.misses + 1
    {
    }

    static ghost function Count(b: bool): nat { if b then 1 else 0 }

    /** After the driver rejects a served image: drop that entry and compile without looking at the store. */
    method RecompileAfterRejection(key: string, q: Request, deleteWorks: bool) returns (r: Result<seq<Byte>, string>)
      requires Valid() && store.Some?
      modifies this
      ensures Valid() && r == Direct(backend, q)
      ensures store == Some(if deleteWorks then old(store).value - {key} else old(store).value)
      ensures stats == old(stats).(ioErrors := old(stats).ioErrors + if deleteWorks then 0 else 1)
      ensures compiles == old(compiles) + if r.Ok? then 1 else 0
    {
      if deleteWorks {
        store := Some(store.value - {key});
      } else {
        stats := stats.(ioErrors := stats.ioErrors + 1);
      }
      r := RunTileiras(q);
    }

    /** Other processes evict entries and leave torn or corrupt ones behind. */
    method Disturb(evicted: set<string>, planted: Store)
      requires Valid() && Honest(sha, backend, inUse, planted)
      modifies this`store
      ensures Valid()
      ensures store == if old(store).Some? then Some(old(store).value - evicted + planted) else None
    {
      if store.Some? {
        store := Some(store.value - evicted + planted);
      }
    }

    /** Requests are for bytecodes in use, and no other process plants a dishonest entry. */
    ghost predicate Allowed(e: Event) {
      match e
      case Ask(q, _) => q.bytecode in inUse
      case Reject(_, _, _) => true
      case Trouble(_, planted) => Honest(sha, backend, inUse, planted)
    }

    /** One event of a session. */
    method Handle(e: Event) returns (answer: Result<seq<Byte>, string>)
      requires Valid() && Allowed(e)
      modifies this
      ensures Valid() && store.Some? == old(store).Some?
      ensures e.Ask? || (e.Reject? && old(store).Some?) ==> answer == Direct(backend, e.q)
      ensures stats.hits + stats.misses == old(stats.hits + stats.misses) + if old(store).Some? && e.Ask? then 1 else 0
    {
      hide Honest, CollisionFree, Direct, StoreAfter, StatsAfter, Hit;
      match e {
        case Ask(q, w) =>
          if store.Some? { OneLookup(stats, store.value, q, w); }
          var r := Compile(q, w);
          answer := if r.Ok? then Ok(r.value.0) else Err(r.error);
        case Reject(key, q, deleteWorks) =>
          if store.Some? {
            answer := RecompileAfterRejection(key, q, deleteWorks);
          } else {
            answer := Err("no store installed");
          }
        case Trouble(evicted, planted) =>
          Disturb(evicted, planted);
          answer := Err("not a request");
      }
    }

    /** A whole session: every request is answered as by the direct compiler, and the counters account for every lookup. */
    method Session(script: seq<Event>) returns (answers: seq<Result<seq<Byte>, string>>)
      requires Valid() && forall e :: e in script ==> Allowed(e)
      modifies this
      ensures Valid()
      ensures |answers| == |script|
      ensures forall i :: 0 <= i < |script| && script[i].Ask? ==> answers[i] == Direct(backend, script[i].q)
      ensures old(store).Some? ==>
                forall i :: 0 <= i < |script| && script[i].Reject? ==> answers[i] == Direct(backend, script[i].q)
      ensures stats.hits + stats.misses
              == old(stats.hits + stats.misses) + if old(store).Some? then Asks(script) else 0
    {
      hide Valid, Allowed, Direct;
      answers := [];
      for i := 0 to |script|
        invariant Valid() && |answers| == i && store.Some? == old(store).Some?
        invariant forall j :: 0 <= j < i && script[j].Ask? ==> answers[j] == Direct(backend, script[j].q)
        invariant old(store).Some? ==>
                    forall j :: 0 <= j < i && script[j].Reject? ==> answers[j] == Direct(backend, script[j].q)
        invariant stats.hits + stats.misses
                  == old(stats.hits + stats.misses) + if old(store).Some? then Asks(script[..i]) else 0
      {
        assert script[..i + 1][..i] == script[..i] && script[i] in script;
        var answer := Handle(script[i]);
        answers := answers + [answer];
      }
      assert script[..|script|] == script;
    }
  }

  /** One thing that happens during a session. */
  datatype Event =
    | Ask(q: Request, w: Weather)
    | Reject(key: string, q: Request, deleteWorks: bool)
    | Trouble(evicted: set<string>, planted: Store)

  /** How many lookups a script makes. */
  function Asks(script: seq<Event>): nat {
    if script == [] then 0
    else Asks(script[..|script| - 1]) + if script[|script| - 1].Ask? then 1 else 0
  }
}
