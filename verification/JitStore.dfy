/** The file-system store: entries under hex keys, read, written and evicted. */
module JitStore {
  import opened Prelude
  import opened Bytes
  import opened Eviction
  import L2Key

  datatype Error = InvalidKey | InvalidWatermarks | Io

  datatype File = File(bytes: seq<Byte>, mtime: nat)

  type Files = map<string, File>

  /** The stored bytes, without their times. */
  function View(fs: Files): map<string, seq<Byte>> { map k | k in fs :: fs[k].bytes }

  function Listing(fs: Files, names: seq<string>): (es: seq<Listed>)
    requires forall x :: x in names ==> x in fs
    ensures |es| == |names|
    ensures forall i :: 0 <= i < |names| ==> es[i] == Listed(names[i], |fs[names[i]].bytes|, fs[names[i]].mtime)
  {
    seq(|names|, i requires 0 <= i < |names| => Listed(names[i], |fs[names[i]].bytes|, fs[names[i]].mtime))
  }

  /** One eviction pass over the listed files turns `before` into `after`, of which `left` listed bytes remain. */
  ghost predicate Evicted(
    before: Files, names: seq<string>, ok: set<string>, high: real, target: real, after: Files, left: nat)
    requires forall x :: x in names ==> x in before
  {
    var es := Order(Listing(before, names));
    if Sum(es) as real <= high then after == before && left == Sum(es)
    else
      exists n :: StopsAt(es, ok, target, n) && after == before - Deleted(es, ok, n) && left == Sum(Survivors(es, ok, n))
  }

  /** A file no larger than the target, strictly newer than every other listed one, outlives a pass that can remove the rest. */
  lemma FreshFileKept(
    before: Files, names: seq<string>, ok: set<string>, high: real, target: real, after: Files,
    left: nat, key: string)
    requires Distinct(names) && (forall x :: x in names ==> x in before) && key in before
    requires Evicted(before, names, ok, high, target, after, left)
    requires |before[key].bytes| as real <= target
    requires forall x :: x in names && x != key ==> x in ok && before[x].mtime < before[key].mtime
    ensures key in after && after[key] == before[key]
  {
    hide Deleted, Sum, Order, Sorted, DistinctKeys, Survivors;
    var listed := Listing(before, names);
    var es := Order(listed);
    if Sum(es) as real > high {
      var n :| StopsAt(es, ok, target, n) && after == before - Deleted(es, ok, n)
               && left == Sum(Survivors(es, ok, n));
      OrderSorts(listed);
      ListingDistinct(before, names);
      if key in names {
        var i :| 0 <= i < |names| && names[i] == key;
        NewestListedKept(es, listed[i], ok, target, n);
      } else {
        DeletedListed(es, ok, n, key);
      }
    }
  }

  /** A strictly newest listed file is deleted exactly when the pass is over the high mark, the file can be removed, and
      what cannot be removed leaves no room for it. */
  lemma FreshFileLostIff(
    before: Files, names: seq<string>, ok: set<string>, high: real, target: real, after: Files,
    left: nat, key: string)
    requires Distinct(names) && (forall x :: x in names ==> x in before) && key in names
    requires Evicted(before, names, ok, high, target, after, left)
    requires forall x :: x in names && x != key ==> before[x].mtime < before[key].mtime
    ensures key !in after <==>
            && key in ok && Sum(Listing(before, names)) as real > high
            && (Sum(Stuck(Listing(before, names), ok)) + |before[key].bytes|) as real > target
    ensures key in after ==> after[key] == before[key]
  {
    hide Deleted, Sum, Order, Sorted, DistinctKeys, Survivors, Stuck;
    var listed := Listing(before, names);
    var es := Order(listed);
    OrderSorts(listed);
    OrderStuck(listed, ok);
    ListingDistinct(before, names);
    if Sum(es) as real > high {
      var n :| StopsAt(es, ok, target, n) && after == before - Deleted(es, ok, n)
               && left == Sum(Survivors(es, ok, n));
      var i :| 0 <= i < |names| && names[i] == key;
      NewestListedIff(es, listed[i], ok, target, n);
    }
  }

  lemma ListingDistinct(fs: Files, names: seq<string>)
    requires Distinct(names) && forall x :: x in names ==> x in fs
    ensures DistinctKeys(Listing(fs, names))
  {
  }

  class FileSystemJitStore {
    const capacity: nat
    const high: real
    const low: real
    var files: Files

    constructor (existing: Files, capacity: nat, high: real, low: real)
      requires 0.0 < low <= high
      ensures this.capacity == capacity && this.high == high && this.low == low && files == existing
    {
      this.capacity, this.high, this.low, files := capacity, high, low, existing;
    }

    ghost function HighMark(): real { capacity as real * high }
    ghost function LowMark(): real { capacity as real * low }

    method Get(key: string, readable: bool, now: nat, touchable: bool) returns (r: Result<Option<seq<Byte>>, Error>)
      modifies this
      ensures r.Err? <==> L2Key.PathOf(key).None? || !readable
      ensures r.Err? ==> files == old(files)
      ensures r.Ok? ==> r.value == if key in old(files) then Some(old(files)[key].bytes) else None
      ensures r == Ok(None) ==> files == old(files)
      ensures View(files) == View(old(files))
      ensures r.Ok? && r.value.Some? ==>
                files == if capacity > 0 && touchable then old(files)[key := old(files)[key].(mtime := now)] else old(files)
    {
      if L2Key.PathOf(key).None? {
        return Err(InvalidKey);
      }
      if !readable {
        return Err(Io);
      }
      if key !in files {
        return Ok(None);
      }
      var bytes := files[key].bytes;
      if capacity > 0 && touchable {
        files := files[key := files[key].(mtime := now)];
      }
      r := Ok(Some(bytes));
    }

    /** Removes an entry; one that is not there is removed already. */
    method Delete(key: string, removable: bool) returns (r: Result<(), Error>)
      modifies this
      ensures r.Ok? <==> L2Key.PathOf(key).Some? && (removable || key !in old(files))
      ensures files == if r.Ok? then old(files) - {key} else old(files)
    {
      if L2Key.PathOf(key).None? {
        return Err(InvalidKey);
      }
      if key in files {
        if !removable {
          return Err(Io);
        }
        files := files - {key};
      }
      r := Ok(());
    }

    /** The listed files and their total size. */
    method Scan(names: seq<string>) returns (es: seq<Listed>, total: nat)
      requires forall x :: x in names ==> x in files
      ensures es == Listing(files, names) && total == Sum(es)
    {
      es, total := [], 0;
      ghost var all := Listing(files, names);
      for i := 0 to |names|
        invariant es == all[..i] && total == Sum(es)
      {
        var f := files[names[i]];
        SumConcat(es, [Listed(names[i], |f.bytes|, f.mtime)]);
        total := total + |f.bytes|;
        es := es + [Listed(names[i], |f.bytes|, f.mtime)];
      }
    }

    /** Removes entries in the given order until at most `target` bytes are left. */
    method Remove(es: seq<Listed>, size: nat, target: real, ok: set<string>) returns (total: nat, ghost n: nat)
      requires size == Sum(es)
      modifies this
      ensures StopsAt(es, ok, target, n) && files == old(files) - Deleted(es, ok, n)
      ensures total == Sum(Survivors(es, ok, n))
    {
      hide Deleted, Sum, Survivors;
      total := size;
      var i := 0;
      assert Survivors(es, ok, 0) == es && Deleted(es, ok, 0) == {} by { NothingRemoved(es, ok); }
      while i < |es| && total as real > target
        invariant i <= |es|
        invariant total == Sum(Survivors(es, ok, i))
        invariant forall m :: 0 <= m < i ==> Sum(Survivors(es, ok, m)) as real > target
        invariant files == old(files) - Deleted(es, ok, i)
      {
        SurvivorsStep(es, ok, i);
        DeletedStep(es, ok, i);
        if es[i].key in ok {
          files := files - {es[i].key};
          total := total - es[i].len;
        }
        i := i + 1;
      }
      n := i;
    }

    /** One pass, under the cross-process lock. `names` is the directory scan, `ok` the files whose removal succeeds. */
    method Evict(locked: bool, names: seq<string>, ok: set<string>) returns (total: nat)
      requires Distinct(names) && forall x :: x in names ==> x in files
      modifies this
      ensures if locked then Evicted(old(files), names, ok, HighMark(), LowMark(), files, total) else files == old(files)
    {
      hide Order, Sorted, Sum, Survivors, Deleted, StopsAt;
      total := 0;
      if locked {
        var es;
        es, total := Scan(names);
        OrderSorts(es);
        if total as real > capacity as real * high {
          ghost var n;
          total, n := Remove(Order(es), total, capacity as real * low, ok);
        }
      }
    }

    /** Stores an entry unless it could never be retained, then scans when the draw says so. */
    method Put(key: string, value: seq<Byte>, now: nat, writable: bool, draw: nat,
               locked: bool, names: seq<string>, ok: set<string>) returns (r: Result<bool, Error>, ghost left: nat)
      requires Distinct(names) && forall x :: x in names ==> x in files || x == key
      modifies this
      ensures r == if L2Key.PathOf(key).None? then Err(InvalidKey)
                   else if TooLarge(value) then Ok(false)
                   else if writable then Ok(true) else Err(Io)
      ensures r != Ok(true) ==> files == old(files)
      ensures r == Ok(true) ==> forall x :: x in files ==>
                x in old(files)[key := File(value, now)] && files[x] == old(files)[key := File(value, now)][x]
      ensures r == Ok(true) && (capacity == 0 || !Triggers(capacity, |value|, draw) || !locked)
              ==> files == old(files)[key := File(value, now)]
      ensures r == Ok(true) && capacity > 0 && Triggers(capacity, |value|, draw) && locked
              ==> Evicted(old(files)[key := File(value, now)], names, ok, HighMark(), LowMark(), files, left)
      ensures r == Ok(true) && (forall x :: x in names && x != key ==> x in ok && old(files)[x].mtime < now)
              ==> key in files && files[key] == File(value, now)
      ensures r == Ok(true) && capacity > 0 && Triggers(capacity, |value|, draw) && locked && key in names
              && (forall x :: x in names && x != key ==> old(files)[x].mtime < now)
              ==> (key !in files <==> LosesItself(old(files)[key := File(value, now)], names, ok, key, |value|))
    {
      left := 0;
      if L2Key.PathOf(key).None? {
        r := Err(InvalidKey);
        return;
      }
      if capacity > 0 && |value| as real > capacity as real * low {
        r := Ok(false);
        return;
      }
      if !writable {
        r := Err(Io);
        return;
      }
      files := files[key := File(value, now)];
      ghost var mid := files;
      if capacity > 0 {
        var threshold := if capacity / 16 > 1 then capacity / 16 else 1;
        if draw * threshold < |value| * U64 {
          left := Evict(locked, names, ok);
          if locked && forall x :: x in names && x != key ==> x in ok && old(files)[x].mtime < now {
            FreshFileKept(mid, names, ok, HighMark(), LowMark(), files, left, key);
          }
          if locked && key in names && forall x :: x in names && x != key ==> old(files)[x].mtime < now {
            FreshFileLostIff(mid, names, ok, HighMark(), LowMark(), files, left, key);
          }
        }
      }
      r := Ok(true);
    }

    /** The pass over `names` is over the high mark and what cannot be removed leaves no room for `len` removable bytes. */
    ghost predicate LosesItself(mid: Files, names: seq<string>, ok: set<string>, key: string, len: nat)
      requires forall x :: x in names ==> x in mid
    {
      && key in ok && Sum(Listing(mid, names)) as real > HighMark()
      && (Sum(Stuck(Listing(mid, names), ok)) + len) as real > LowMark()
    }

    predicate TooLarge(value: seq<Byte>) { capacity > 0 && |value| as real > capacity as real * low }
  }

  /** Opens a store on whatever the directory holds. Ordered watermarks put the low mark under the high one, so an entry
      the store accepts is never by itself a reason to evict. */
  method Open(existing: Files, capacity: nat, high: real, low: real) returns (r: Result<FileSystemJitStore, Error>)
    ensures r.Err? <==> !(0.0 < low <= high)
    ensures r.Ok? ==> fresh(r.value) && r.value.capacity == capacity && r.value.files == existing
    ensures r.Ok? ==> r.value.HighMark() == capacity as real * high && r.value.LowMark() == capacity as real * low
    ensures r.Ok? ==> 0.0 <= r.value.LowMark() <= r.value.HighMark()
    ensures r.Ok? && capacity > 0 ==> forall v :: !r.value.TooLarge(v) ==> |v| as real <= r.value.HighMark()
  {
    if !(low > 0.0 && low <= high) {
      return Err(InvalidWatermarks);
    }
    var store := new FileSystemJitStore(existing, capacity, high, low);
    MarksOrdered(capacity, high, low);
    r := Ok(store);
  }

  lemma MarksOrdered(capacity: nat, high: real, low: real)
    requires 0.0 < low <= high
    ensures 0.0 <= capacity as real * low <= capacity as real * high
  {
  }

  /** An accepted, strictly newest entry can be deleted by its own write: all it takes is one older entry that cannot be
      removed. */
  method PutCanLoseItself(older: string, key: string, value: seq<Byte>, draw: nat)
    returns (r: Result<bool, Error>, store: FileSystemJitStore)
    requires L2Key.PathOf(older).Some? && L2Key.PathOf(key).Some? && older != key && |value| == 5 && draw < U64
    ensures r == Ok(true) && key !in store.files && older in store.files
  {
    store := new FileSystemJitStore(map[older := File([0, 0, 0, 0, 0], 0)], 10, 0.8, 0.6);
    ghost var mid := store.files[key := File(value, 1)];
    var names := [older, key];
    ghost var es := Listing(mid, names);
    assert es == [Listed(older, 5, 0), Listed(key, 5, 1)];
    PairSum(es[0], es[1]);
    assert Sum(Stuck(es, {key})) == 5 by {
      StuckSnoc([es[0]], es[1], {key});
      StuckSnoc([], es[0], {key});
      assert [es[0]] + [es[1]] == es && [] + [es[0]] == [es[0]] && Stuck([], {key}) == [];
      assert Sum([es[0]]) == 5 by { SumConcat([es[0]], []); }
    }
    ghost var left;
    r, left := store.Put(key, value, 1, true, draw, true, names, {key});
  }
}
