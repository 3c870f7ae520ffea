/** Captured graphs: deduplicating the recorded accesses, and handing updates over to a replay. */
module GraphCapture {
  import opened Prelude
  import S = Submission

  /** A recorded access: which storage, and whether it writes. */
  datatype Resource = Resource(id: nat, storage: nat, write: bool)

  predicate Touches(rs: seq<Resource>, storage: nat) { exists i :: 0 <= i < |rs| && rs[i].storage == storage }

  predicate Writes(rs: seq<Resource>, storage: nat) { exists i :: 0 <= i < |rs| && rs[i].storage == storage && rs[i].write }

  /** The distinct storages in order of first occurrence. */
  function Storages(rs: seq<Resource>): seq<nat> {
    if rs == [] then []
    else
      var n := |rs| - 1;
      if Touches(rs[..n], rs[n].storage) then Storages(rs[..n]) else Storages(rs[..n]) + [rs[n].storage]
  }

  /** The access that stands for `storage`: the first that writes, or the first of all if none does. */
  ghost predicate StandsFor(rs: seq<Resource>, storage: nat, r: Resource) {
    exists i ::
      && 0 <= i < |rs| && rs[i] == r && r.storage == storage
      && (r.write <==> Writes(rs, storage))
      && forall j :: 0 <= j < i && rs[j].storage == storage ==> r.write && !rs[j].write
  }

  ghost predicate Deduplicates(rs: seq<Resource>, captured: seq<Resource>) {
    && |captured| == |Storages(rs)|
    && forall k :: 0 <= k < |captured| ==> captured[k].storage == Storages(rs)[k] && StandsFor(rs, Storages(rs)[k], captured[k])
  }

  lemma {:induction false} StoragesAre(rs: seq<Resource>)
    ensures Distinct(Storages(rs))
    ensures forall x :: x in Storages(rs) <==> Touches(rs, x)
    decreases |rs|
  {
    if rs != [] {
      var n := |rs| - 1;
      StoragesAre(rs[..n]);
      forall x ensures Touches(rs, x) <==> Touches(rs[..n], x) || x == rs[n].storage { TouchesSnoc(rs, x); }
    }
  }

  lemma TouchesSnoc(rs: seq<Resource>, x: nat)
    requires rs != []
    ensures Touches(rs, x) <==> Touches(rs[..|rs| - 1], x) || x == rs[|rs| - 1].storage
  {
    var p := rs[..|rs| - 1];
    assert forall i :: 0 <= i < |p| ==> p[i] == rs[i];
    if Touches(p, x) {
      var i :| 0 <= i < |p| && p[i].storage == x;
      assert rs[i].storage == x;
    }
    if Touches(rs, x) && x != rs[|rs| - 1].storage {
      var i :| 0 <= i < |rs| && rs[i].storage == x;
      assert p[i].storage == x;
    }
  }

  lemma WritesSnoc(rs: seq<Resource>, x: nat)
    requires rs != []
    ensures var last := rs[|rs| - 1];
            Writes(rs, x) <==> Writes(rs[..|rs| - 1], x) || (last.storage == x && last.write)
  {
    var p := rs[..|rs| - 1];
    if Writes(p, x) {
      var i :| 0 <= i < |p| && p[i].storage == x && p[i].write;
      assert rs[i].storage == x && rs[i].write;
    }
    if Writes(rs, x) && !(rs[|rs| - 1].storage == x && rs[|rs| - 1].write) {
      var i :| 0 <= i < |rs| && rs[i].storage == x && rs[i].write;
      assert p[i].storage == x && p[i].write;
    }
  }

  /** Another access changes who stands for a storage only if it is the storage's first write. */
  lemma StandsForSnoc(rs: seq<Resource>, x: nat, r: Resource)
    requires rs != [] && StandsFor(rs[..|rs| - 1], x, r)
    ensures var last := rs[|rs| - 1];
            StandsFor(rs, x, if last.storage == x && last.write && !r.write then last else r)
  {
    var p, last := rs[..|rs| - 1], rs[|rs| - 1];
    var i :| 0 <= i < |p| && p[i] == r && r.storage == x && (r.write <==> Writes(p, x))
             && forall j :: 0 <= j < i && p[j].storage == x ==> r.write && !p[j].write;
    WritesSnoc(rs, x);
    if last.storage == x && last.write && !r.write {
      forall j | 0 <= j < |p| && rs[j].storage == x ensures !rs[j].write {
        assert p[j].storage == x;
      }
      assert rs[|p|] == last;
    } else {
      assert rs[i] == r;
      forall j | 0 <= j < i && rs[j].storage == x ensures r.write && !rs[j].write {
        assert p[j].storage == x;
      }
    }
  }

  lemma StandsForFirst(rs: seq<Resource>)
    requires rs != [] && !Touches(rs[..|rs| - 1], rs[|rs| - 1].storage)
    ensures StandsFor(rs, rs[|rs| - 1].storage, rs[|rs| - 1])
  {
    var p, last := rs[..|rs| - 1], rs[|rs| - 1];
    WritesSnoc(rs, last.storage);
    assert !Writes(p, last.storage);
    forall j | 0 <= j < |p| ensures rs[j].storage != last.storage {
      assert p[j] == rs[j];
    }
    assert rs[|p|] == last;
  }

  lemma SeenAgain(rs: seq<Resource>, was: seq<Resource>, i: nat)
    requires rs != [] && Deduplicates(rs[..|rs| - 1], was) && i < |was| && was[i].storage == rs[|rs| - 1].storage
    ensures var last := rs[|rs| - 1];
            Deduplicates(rs, if last.write && !was[i].write then was[i := last] else was)
  {
    var p, last := rs[..|rs| - 1], rs[|rs| - 1];
    StoragesAre(p);
    assert Storages(p)[i] in Storages(p);
    var now := if last.write && !was[i].write then was[i := last] else was;
    hide StandsFor, Touches;
    forall k | 0 <= k < |was| ensures now[k].storage == Storages(rs)[k] && StandsFor(rs, Storages(rs)[k], now[k]) {
      StandsForSnoc(rs, was[k].storage, was[k]);
      assert k != i ==> Storages(p)[k] != Storages(p)[i];
    }
  }

  lemma SeenFirst(rs: seq<Resource>, was: seq<Resource>)
    requires rs != [] && Deduplicates(rs[..|rs| - 1], was) && !Touches(rs[..|rs| - 1], rs[|rs| - 1].storage)
    ensures Deduplicates(rs, was + [rs[|rs| - 1]])
  {
    var p, last := rs[..|rs| - 1], rs[|rs| - 1];
    StandsForFirst(rs);
    StoragesAre(p);
    hide StandsFor, Touches;
    forall k | 0 <= k < |was| ensures was[k].storage == Storages(rs)[k] && StandsFor(rs, Storages(rs)[k], was[k]) {
      assert Storages(p)[k] in Storages(p);
      StandsForSnoc(rs, was[k].storage, was[k]);
    }
  }

  lemma NothingRecorded()
    ensures Deduplicates([], []) && forall x :: !Touches([], x)
  {
  }

  /** One storage, one resource: in order of first occurrence, a write standing in for reads. */
  method AdoptCapture(recorded: seq<Resource>) returns (captured: seq<Resource>)
    ensures Deduplicates(recorded, captured)
  {
    hide Storages, StandsFor;
    captured := [];
    var index: map<nat, nat> := map[];
    NothingRecorded();
    assert recorded[..0] == [];
    for n := 0 to |recorded|
      invariant Deduplicates(recorded[..n], captured)
      invariant forall x :: x in index <==> Touches(recorded[..n], x)
      invariant forall x :: x in index ==> index[x] < |captured| && captured[index[x]].storage == x
    {
      hide Deduplicates, Touches, Storages;
      ghost var after := recorded[..n + 1];
      assert after[..n] == recorded[..n] && after[n] == recorded[n];
      forall x ensures Touches(after, x) <==> Touches(recorded[..n], x) || x == recorded[n].storage { TouchesSnoc(after, x); }
      var r := recorded[n];
      if r.storage in index {
        var i := index[r.storage];
        SeenAgain(after, captured, i);
        if r.write && !captured[i].write {
          captured := captured[i := r];
        }
      } else {
        SeenFirst(after, captured);
        index := index[r.storage := |captured|];
        captured := captured + [r];
      }
    }
    assert recorded[..|recorded|] == recorded;
  }

  // ---------------------------------------------------------------- replaying

  /** What a replay holds: each storage acquired, for writing if any access writes. */
  type Access = map<nat, bool>

  function Acquire(held: Access, r: Resource): Access {
    held[r.storage := r.write || (r.storage in held && held[r.storage])]
  }

  /** Reacquiring every resource in turn. */
  function Replay(held: Access, rs: seq<Resource>): Access {
    if rs == [] then held else Acquire(Replay(held, rs[..|rs| - 1]), rs[|rs| - 1])
  }

  /** A replay acquires exactly the storages touched, for writing exactly those written. */
  lemma {:induction false} ReplayHolds(held: Access, rs: seq<Resource>, x: nat)
    ensures x in Replay(held, rs) <==> x in held || Touches(rs, x)
    ensures x in Replay(held, rs) ==> (Replay(held, rs)[x] <==> (x in held && held[x]) || Writes(rs, x))
    decreases |rs|
  {
    if rs != [] {
      ReplayHolds(held, rs[..|rs| - 1], x);
      TouchesSnoc(rs, x);
      WritesSnoc(rs, x);
      WritesTouches(rs[..|rs| - 1], x);
    }
  }

  lemma WritesTouches(rs: seq<Resource>, x: nat)
    ensures Writes(rs, x) ==> Touches(rs, x)
  {
  }

  lemma CapturedTouches(rs: seq<Resource>, captured: seq<Resource>, x: nat)
    requires Deduplicates(rs, captured)
    ensures Touches(captured, x) <==> Touches(rs, x)
    ensures Writes(captured, x) <==> Writes(rs, x)
  {
    StoragesAre(rs);
    if x in Storages(rs) {
      var k :| 0 <= k < |captured| && Storages(rs)[k] == x;
      assert captured[k].storage == x && StandsFor(rs, x, captured[k]);
      if Writes(captured, x) {
        var l :| 0 <= l < |captured| && captured[l].storage == x && captured[l].write;
        assert StandsFor(rs, x, captured[l]);
      }
    } else {
      WritesTouches(rs, x);
      forall l | 0 <= l < |captured| ensures captured[l].storage != x {
        assert Storages(rs)[l] in Storages(rs);
      }
    }
  }

  /** Replaying the deduplicated resources acquires what replaying the whole recording would, whatever is held already. */
  lemma ReplayUnchanged(held: Access, rs: seq<Resource>, captured: seq<Resource>)
    requires Deduplicates(rs, captured)
    ensures Replay(held, captured) == Replay(held, rs)
  {
    hide Deduplicates, Touches, Writes, Replay;
    forall x ensures x in Replay(held, captured) <==> x in Replay(held, rs)
             ensures x in Replay(held, rs) ==> Replay(held, captured)[x] == Replay(held, rs)[x]
    {
      ReplayHolds(held, rs, x);
      ReplayHolds(held, captured, x);
      CapturedTouches(rs, captured, x);
    }
  }

  /** The position of the first access to `x`, or the length if there is none. */
  function FirstUse(rs: seq<Resource>, x: nat): (n: nat)
    ensures n <= |rs| && (n < |rs| ==> rs[n].storage == x) && forall i :: 0 <= i < n ==> rs[i].storage != x
    decreases |rs|
  {
    if rs == [] || rs[0].storage == x then 0
    else
      var n := FirstUse(rs[1..], x);
      assert forall i :: 1 <= i < |rs| ==> rs[i] == rs[1..][i - 1];
      n + 1
  }

  lemma FirstUseOfPrefix(rs: seq<Resource>, x: nat)
    requires rs != []
    ensures var p := rs[..|rs| - 1];
            if Touches(p, x) then FirstUse(rs, x) == FirstUse(p, x) < |p| else FirstUse(rs, x) >= |p|
  {
    var p := rs[..|rs| - 1];
    var n, m := FirstUse(rs, x), FirstUse(p, x);
    assert forall i :: 0 <= i < |p| ==> p[i] == rs[i];
    assert n < |p| ==> p[n].storage == x;
    if Touches(p, x) {
      var i :| 0 <= i < |p| && p[i].storage == x;
      assert m <= i && n <= m;
      assert p[n].storage == x;
    }
  }

  lemma {:induction false} StoragesInOrder(rs: seq<Resource>, i: nat, j: nat)
    requires i < j < |Storages(rs)|
    ensures FirstUse(rs, Storages(rs)[i]) < FirstUse(rs, Storages(rs)[j]) < |rs|
    decreases |rs|
  {
    var n := |rs| - 1;
    var p := rs[..n];
    StoragesAre(p);
    StoragesAre(rs);
    var x, y := Storages(rs)[i], Storages(rs)[j];
    FirstUseOfPrefix(rs, x);
    FirstUseOfPrefix(rs, y);
    assert x == Storages(p)[i] && x in Storages(p);
    if j < |Storages(p)| {
      assert y in Storages(p);
      StoragesInOrder(p, i, j);
    } else {
      assert y == rs[n].storage && FirstUse(rs, y) <= n;
    }
  }

  /** Everything kept comes from the recording, no storage is kept twice, and the order is that of first use. */
  lemma OncePerStorage(rs: seq<Resource>, captured: seq<Resource>, i: nat)
    requires Deduplicates(rs, captured) && i < |captured|
    ensures captured[i] in rs
    ensures forall j :: i < j < |captured| ==>
              && captured[i].storage != captured[j].storage
              && FirstUse(rs, captured[i].storage) < FirstUse(rs, captured[j].storage) < |rs|
  {
    StoragesAre(rs);
    assert StandsFor(rs, Storages(rs)[i], captured[i]);
    forall j | i < j < |captured|
      ensures FirstUse(rs, captured[i].storage) < FirstUse(rs, captured[j].storage) < |rs|
    {
      StoragesInOrder(rs, i, j);
    }
  }

  // ---------------------------------------------------------------- updates and launches

  datatype Error = Completed | AcquireFailed | LaunchFailed | UpdateFailed

  /** An instantiated graph. Contexts of updates wait in `pending` for the next replay. */
  class GraphExec {
    const id: nat
    var captured: seq<Resource>
    var pending: seq<nat>
    /** History: every update context, and the ones a launch took over. */
    ghost var updates: multiset<nat>
    ghost var handedOver: multiset<nat>

    /** No update context is lost or handed over twice. */
    ghost predicate Valid()
      reads this
    {
      updates == handedOver + multiset(pending)
    }

    constructor (id: nat, recorded: seq<Resource>)
      ensures Valid() && this.id == id && Deduplicates(recorded, captured) && pending == []
    {
      this.id, pending, updates, handedOver := id, [], multiset{}, multiset{};
      new;
      captured := AdoptCapture(recorded);
    }

    /** Submits an update; its context is kept whether or not the operation succeeded. */
    method Update(context: nat, opOk: bool) returns (r: Result<(), Error>)
      requires Valid()
      modifies this
      ensures Valid() && pending == old(pending) + [context] && handedOver == old(handedOver) && captured == old(captured)
      ensures r.Ok? <==> opOk
    {
      pending := pending + [context];
      updates := updates + multiset{context};
      r := if opOk then Ok(()) else Err(UpdateFailed);
    }

    /** Replays on `context`: retain the graph, reacquire every captured resource, take the pending updates over, launch.
        `acquired` is how many resources can be reacquired. */
    method Launch(context: S.Submission, acquired: nat, launchOk: bool) returns (r: Result<(), Error>)
      requires Valid() && context.Valid()
      modifies this, context
      ensures Valid() && context.Valid() && captured == old(captured) && updates == old(updates)
      ensures r == if old(context.owners).None? then Err(Completed)
                   else if acquired < |captured| then Err(AcquireFailed)
                   else if launchOk then Ok(()) else Err(LaunchFailed)
      ensures r == Err(Completed) || r == Err(AcquireFailed) ==> pending == old(pending) && handedOver == old(handedOver)
      ensures r != Err(Completed) && r != Err(AcquireFailed) ==>
                && pending == [] && handedOver == old(handedOver) + multiset(old(pending))
                && context.Held() == old(context.Held()) + multiset{S.Other(id)} + Leases(captured) + Contexts(old(pending))
      ensures r == Err(Completed) ==> context.Held() == old(context.Held())
      ensures r == Err(AcquireFailed) ==>
                context.Held() == old(context.Held()) + multiset{S.Other(id)} + Leases(captured[..acquired])
    {
      hide S.Submission.Valid, S.Submission.Held, Leases, Contexts;
      var kept := context.Retain(S.Other(id));
      if !kept {
        return Err(Completed);
      }
      kept := Reacquire(context, captured, acquired);
      if !kept {
        return Err(AcquireFailed);
      }
      var taken := TakePending();
      HandOver(context, taken);
      r := if launchOk then Ok(()) else Err(LaunchFailed);
    }

    /** Empties the pending list for a launch to own. */
    method TakePending() returns (taken: seq<nat>)
      requires Valid()
      modifies this`pending, this`handedOver
      ensures Valid() && taken == old(pending) && pending == [] && handedOver == old(handedOver) + multiset(taken)
    {
      taken := pending;
      pending := [];
      handedOver := handedOver + multiset(taken);
      assert multiset(pending) == multiset{};
    }
  }

  /** One lease per captured resource, until one cannot be had. */
  method Reacquire(context: S.Submission, rs: seq<Resource>, acquired: nat) returns (ok: bool)
    requires context.Valid() && context.owners.Some?
    modifies context
    ensures context.Valid() && context.owners.Some?
    ensures ok <==> acquired >= |rs|
    ensures context.Held() == old(context.Held()) + Leases(if ok then rs else rs[..acquired])
  {
    hide S.Submission.Valid, S.Submission.Held;
    ghost var before := context.Held();
    for i := 0 to |rs|
      invariant context.Valid() && context.owners.Some? && i <= acquired
      invariant context.Held() == before + Leases(rs[..i])
    {
      hide Leases;
      if i == acquired {
        return false;
      }
      LeasesStep(rs, i);
      var _ := context.Retain(S.Lease(rs[i].storage, rs[i].id));
    }
    assert rs[..|rs|] == rs;
    ok := true;
  }

  /** The launch takes every pending update context over: a submission that took the graph refuses none of them. */
  method HandOver(context: S.Submission, cs: seq<nat>)
    requires context.Valid() && context.owners.Some?
    modifies context
    ensures context.Valid() && context.owners.Some?
    ensures context.Held() == old(context.Held()) + Contexts(cs)
  {
    hide S.Submission.Valid, S.Submission.Held;
    ghost var before := context.Held();
    for i := 0 to |cs|
      invariant context.Valid() && context.owners.Some?
      invariant context.Held() == before + Contexts(cs[..i])
    {
      hide Contexts;
      ContextsStep(cs, i);
      var kept := context.Retain(S.Other(cs[i]));
      assert kept;
    }
    assert cs[..|cs|] == cs;
  }

  lemma ContextsStep(cs: seq<nat>, i: nat)
    requires i < |cs|
    ensures Contexts(cs[..i + 1]) == Contexts(cs[..i]) + multiset{S.Other(cs[i])}
  {
    assert cs[..i + 1][..i] == cs[..i];
  }

  lemma LeasesStep(rs: seq<Resource>, i: nat)
    requires i < |rs|
    ensures Leases(rs[..i + 1]) == Leases(rs[..i]) + multiset{S.Lease(rs[i].storage, rs[i].id)}
  {
    assert rs[..i + 1][..i] == rs[..i];
  }

  /** One lease for each resource and one owner for each context, as many times as they are listed. */
  lemma {:induction false} LeasesAre(rs: seq<Resource>)
    ensures Leases(rs) == multiset(seq(|rs|, i requires 0 <= i < |rs| => S.Lease(rs[i].storage, rs[i].id)))
    decreases |rs|
  {
    if rs != [] {
      var n := |rs| - 1;
      LeasesAre(rs[..n]);
      var p := seq(n, i requires 0 <= i < n => S.Lease(rs[..n][i].storage, rs[..n][i].id));
      assert seq(|rs|, i requires 0 <= i < |rs| => S.Lease(rs[i].storage, rs[i].id)) == p + [S.Lease(rs[n].storage, rs[n].id)];
    }
  }

  lemma {:induction false} ContextsAre(cs: seq<nat>)
    ensures Contexts(cs) == multiset(seq(|cs|, i requires 0 <= i < |cs| => S.Other(cs[i])))
    decreases |cs|
  {
    if cs != [] {
      var n := |cs| - 1;
      ContextsAre(cs[..n]);
      var p := seq(n, i requires 0 <= i < n => S.Other(cs[..n][i]));
      assert seq(|cs|, i requires 0 <= i < |cs| => S.Other(cs[i])) == p + [S.Other(cs[n])];
    }
  }

  ghost function Leases(rs: seq<Resource>): multiset<S.Owner> {
    if rs == [] then multiset{}
    else Leases(rs[..|rs| - 1]) + multiset{S.Lease(rs[|rs| - 1].storage, rs[|rs| - 1].id)}
  }

  ghost function Contexts(cs: seq<nat>): multiset<S.Owner> {
    if cs == [] then multiset{} else Contexts(cs[..|cs| - 1]) + multiset{S.Other(cs[|cs| - 1])}
  }
}
