/** Which entries an eviction pass removes: oldest first, from above the high mark down to the low one. */
module Eviction {
  import opened Bytes

  /** A directory entry as the scan sees it. */
  datatype Listed = Listed(key: string, len: nat, mtime: nat)

  function Sum(es: seq<Listed>): nat {
    if es == [] then 0 else es[0].len + Sum(es[1..])
  }

  ghost predicate Sorted(es: seq<Listed>) {
    forall i, j :: 0 <= i < j < |es| ==> es[i].mtime <= es[j].mtime
  }

  ghost predicate DistinctKeys(es: seq<Listed>) {
    forall i, j :: 0 <= i < j < |es| ==> es[i].key != es[j].key
  }

  // ---------------------------------------------------------------- order of removal

  function Insert(e: Listed, es: seq<Listed>): seq<Listed> {
    if es == [] || e.mtime <= es[0].mtime then [e] + es else [es[0]] + Insert(e, es[1..])
  }

  /** Stable sort by modification time. */
  function Order(es: seq<Listed>): seq<Listed> {
    if es == [] then [] else Insert(es[0], Order(es[1..]))
  }

  lemma {:induction false} InsertAdds(e: Listed, es: seq<Listed>)
    ensures forall x :: x in Insert(e, es) <==> x == e || x in es
    ensures Sum(Insert(e, es)) == e.len + Sum(es)
    decreases |es|
  {
    if es == [] || e.mtime <= es[0].mtime {
      assert ([e] + es)[1..] == es;
    } else {
      InsertAdds(e, es[1..]);
      var r := Insert(e, es[1..]);
      assert ([es[0]] + r)[1..] == r;
      assert forall x :: x in es <==> x == es[0] || x in es[1..];
    }
  }

  lemma {:induction false} InsertSorted(e: Listed, es: seq<Listed>)
    requires Sorted(es)
    ensures Sorted(Insert(e, es))
    decreases |es|
  {
    if es != [] && e.mtime > es[0].mtime {
      var r := Insert(e, es[1..]);
      InsertSorted(e, es[1..]);
      InsertAdds(e, es[1..]);
      forall j | 0 <= j < |r| ensures es[0].mtime <= r[j].mtime {
        assert r[j] in r;
      }
    }
  }

  lemma {:induction false} InsertDistinct(e: Listed, es: seq<Listed>)
    requires DistinctKeys(es) && forall x :: x in es ==> x.key != e.key
    ensures DistinctKeys(Insert(e, es))
    decreases |es|
  {
    if es != [] && e.mtime > es[0].mtime {
      var r := Insert(e, es[1..]);
      InsertDistinct(e, es[1..]);
      InsertAdds(e, es[1..]);
      forall j | 0 <= j < |r| ensures es[0].key != r[j].key {
        assert r[j] in r;
      }
    }
  }

  /** The removal order has the same entries, oldest first. */
  lemma {:induction false} OrderSorts(es: seq<Listed>)
    ensures Sorted(Order(es)) && Sum(Order(es)) == Sum(es)
    ensures forall x :: x in Order(es) <==> x in es
    ensures DistinctKeys(es) ==> DistinctKeys(Order(es))
    decreases |es|
  {
    if es != [] {
      var r := Order(es[1..]);
      OrderSorts(es[1..]);
      InsertAdds(es[0], r);
      InsertSorted(es[0], r);
      assert forall x :: x in es <==> x == es[0] || x in es[1..];
      if DistinctKeys(es) {
        assert forall x :: x in r ==> x.key != es[0].key;
        InsertDistinct(es[0], r);
      }
    }
  }

  lemma {:induction false} SumConcat(a: seq<Listed>, b: seq<Listed>)
    ensures Sum(a + b) == Sum(a) + Sum(b)
    decreases |a|
  {
    if a == [] {
      assert a + b == b;
    } else {
      assert (a + b)[1..] == a[1..] + b;
      SumConcat(a[1..], b);
    }
  }

  // ---------------------------------------------------------------- what a pass leaves

  /** The entries that could not be removed. */
  function Stuck(es: seq<Listed>, ok: set<string>): seq<Listed> {
    if es == [] then []
    else if es[0].key in ok then Stuck(es[1..], ok)
    else [es[0]] + Stuck(es[1..], ok)
  }

  /** What is left after trying to remove the first `n`, when exactly the keys in `ok` can go. */
  function Survivors(es: seq<Listed>, ok: set<string>, n: nat): seq<Listed>
    requires n <= |es|
  {
    Stuck(es[..n], ok) + es[n..]
  }

  function Deleted(es: seq<Listed>, ok: set<string>, n: nat): set<string>
    requires n <= |es|
  {
    set i | 0 <= i < n && es[i].key in ok :: es[i].key
  }

  /** Removal stops at the first point where no more than `target` bytes are left. */
  ghost predicate StopsAt(es: seq<Listed>, ok: set<string>, target: real, n: nat) {
    && n <= |es|
    && (n == |es| || Sum(Survivors(es, ok, n)) as real <= target)
    && forall m :: 0 <= m < n ==> Sum(Survivors(es, ok, m)) as real > target
  }

  lemma {:induction false} StuckSnoc(es: seq<Listed>, e: Listed, ok: set<string>)
    ensures Stuck(es + [e], ok) == Stuck(es, ok) + if e.key in ok then [] else [e]
    decreases |es|
  {
    if es == [] {
      assert es + [e] == [e] && [e][1..] == [];
    } else {
      assert (es + [e])[1..] == es[1..] + [e];
      StuckSnoc(es[1..], e, ok);
    }
  }

  /** One removal takes exactly its own bytes off the total, so the total cannot underflow. */
  lemma SurvivorsStep(es: seq<Listed>, ok: set<string>, n: nat)
    requires n < |es|
    ensures Sum(Survivors(es, ok, n)) == Sum(Survivors(es, ok, n + 1)) + if es[n].key in ok then es[n].len else 0
  {
    assert es[..n + 1] == es[..n] + [es[n]];
    StuckSnoc(es[..n], es[n], ok);
    assert es[n..] == [es[n]] + es[n + 1..];
    var a, b := Stuck(es[..n], ok), es[n + 1..];
    SumConcat(a, [es[n]] + b);
    SumConcat([es[n]], b);
    SumConcat(a, b);
    SumConcat(a, [es[n]]);
    SumConcat(a + [es[n]], b);
    assert a + [] == a;
  }

  lemma {:induction false} SurvivorsShrink(es: seq<Listed>, ok: set<string>, m: nat, n: nat)
    requires m <= n <= |es|
    ensures Sum(Survivors(es, ok, n)) <= Sum(Survivors(es, ok, m))
    decreases n - m
  {
    if m < n {
      SurvivorsStep(es, ok, m);
      SurvivorsShrink(es, ok, m + 1, n);
    }
  }

  lemma {:induction false} StuckOnly(es: seq<Listed>, ok: set<string>)
    ensures forall x :: x in Stuck(es, ok) <==> x in es && x.key !in ok
    decreases |es|
  {
    if es != [] {
      StuckOnly(es[1..], ok);
      assert forall x :: x in es <==> x == es[0] || x in es[1..];
    }
  }

  lemma {:induction false} StuckNone(es: seq<Listed>, ok: set<string>)
    requires forall e :: e in es ==> e.key in ok
    ensures Stuck(es, ok) == []
    decreases |es|
  {
    if es != [] {
      assert es[0] in es;
      StuckNone(es[1..], ok);
    }
  }

  lemma NothingRemoved(es: seq<Listed>, ok: set<string>)
    ensures Survivors(es, ok, 0) == es && Deleted(es, ok, 0) == {}
  {
    assert es[..0] == [] && es[0..] == es;
  }

  lemma DeletedStep(es: seq<Listed>, ok: set<string>, n: nat)
    requires n < |es|
    ensures Deleted(es, ok, n + 1) == Deleted(es, ok, n) + if es[n].key in ok then {es[n].key} else {}
  {
  }

  /** The survivors are exactly the listed entries that were not deleted. */
  lemma SurvivorsAreUndeleted(es: seq<Listed>, ok: set<string>, n: nat, x: Listed)
    requires DistinctKeys(es) && n <= |es|
    ensures x in Survivors(es, ok, n) <==> x in es && x.key !in Deleted(es, ok, n)
  {
    StuckOnly(es[..n], ok);
    assert es == es[..n] + es[n..];
    if x in es {
      var i :| 0 <= i < |es| && es[i] == x;
      if i < n {
        assert es[..n][i] == x;
      } else {
        assert es[n..][i - n] == x;
      }
    }
  }

  /** When every removal succeeds, the deleted entries are the shortest oldest-first prefix that reaches the target. */
  lemma MinimalPrefix(es: seq<Listed>, ok: set<string>, target: real, n: nat)
    requires StopsAt(es, ok, target, n) && target >= 0.0
    requires forall e :: e in es ==> e.key in ok
    ensures Sum(es[n..]) as real <= target
    ensures forall m :: 0 <= m < n ==> Sum(es[m..]) as real > target
    ensures forall e :: e in es[..n] ==> e.key in Deleted(es, ok, n)
  {
    forall m | 0 <= m <= |es| ensures Survivors(es, ok, m) == es[m..] {
      StuckNone(es[..m], ok);
    }
    forall m | 0 <= m < n ensures Sum(es[m..]) as real > target {
      assert Survivors(es, ok, m) == es[m..];
    }
    assert Survivors(es, ok, n) == es[n..];
  }

  /** Nothing is deleted while something older and removable is kept. */
  lemma OldestFirst(es: seq<Listed>, ok: set<string>, n: nat, i: nat, j: nat)
    requires Sorted(es) && DistinctKeys(es) && n <= |es| && i < |es| && j < |es|
    requires es[i].key in Deleted(es, ok, n) && es[j].key in ok && es[j].key !in Deleted(es, ok, n)
    ensures es[i].mtime <= es[j].mtime
  {
    var k :| 0 <= k < n && es[k].key == es[i].key;
    assert k == i;
  }

  /** The newest entry is deleted exactly when what cannot be removed leaves no room for it. */
  lemma NewestDeletedIff(es: seq<Listed>, ok: set<string>, target: real, n: nat)
    requires es != [] && DistinctKeys(es) && StopsAt(es, ok, target, n)
    ensures var k := |es| - 1;
            es[k].key in Deleted(es, ok, n)
            <==> es[k].key in ok && (Sum(Stuck(es[..k], ok)) + es[k].len) as real > target
  {
    var k := |es| - 1;
    assert Survivors(es, ok, k) == Stuck(es[..k], ok) + [es[k]];
    SumConcat(Stuck(es[..k], ok), [es[k]]);
    if n <= k {
      SurvivorsShrink(es, ok, n, k);
    }
  }

  /** An entry that fits the target survives when every older entry can be removed. */
  lemma NewestKept(es: seq<Listed>, ok: set<string>, target: real, n: nat)
    requires es != [] && DistinctKeys(es) && StopsAt(es, ok, target, n)
    requires es[|es| - 1].len as real <= target
    requires forall i :: 0 <= i < |es| - 1 ==> es[i].key in ok
    ensures es[|es| - 1].key !in Deleted(es, ok, n)
  {
    var older := es[..|es| - 1];
    NewestDeletedIff(es, ok, target, n);
    StuckNone(older, ok);
  }

  lemma DeletedListed(es: seq<Listed>, ok: set<string>, n: nat, key: string)
    requires n <= |es| && forall e :: e in es ==> e.key != key
    ensures key !in Deleted(es, ok, n)
  {
  }

  lemma NewestListedKept(es: seq<Listed>, e: Listed, ok: set<string>, target: real, n: nat)
    requires Sorted(es) && DistinctKeys(es) && StopsAt(es, ok, target, n)
    requires e in es && e.len as real <= target
    requires forall x :: x in es && x != e ==> x.key in ok && x.mtime < e.mtime
    ensures e.key !in Deleted(es, ok, n)
  {
    hide StopsAt, Deleted;
    NewestIsLast(es, e);
    forall i | 0 <= i < |es| - 1 ensures es[i].key in ok {
      assert es[i] in es;
      assert es[i] != e by { assert es[i].key != es[|es| - 1].key; }
    }
    NewestKept(es, ok, target, n);
  }

  lemma {:induction false} InsertStuck(e: Listed, es: seq<Listed>, ok: set<string>)
    ensures Sum(Stuck(Insert(e, es), ok)) == Sum(Stuck(es, ok)) + if e.key in ok then 0 else e.len
    decreases |es|
  {
    if es == [] || e.mtime <= es[0].mtime {
      assert ([e] + es)[1..] == es;
      SumConcat([e], Stuck(es, ok));
    } else {
      var r := Insert(e, es[1..]);
      assert ([es[0]] + r)[1..] == r;
      InsertStuck(e, es[1..], ok);
      SumConcat([es[0]], Stuck(r, ok));
      SumConcat([es[0]], Stuck(es[1..], ok));
    }
  }

  /** What cannot be removed has the same size in any order. */
  lemma {:induction false} OrderStuck(es: seq<Listed>, ok: set<string>)
    ensures Sum(Stuck(Order(es), ok)) == Sum(Stuck(es, ok))
    decreases |es|
  {
    if es != [] {
      OrderStuck(es[1..], ok);
      InsertStuck(es[0], Order(es[1..]), ok);
      SumConcat([es[0]], Stuck(es[1..], ok));
    }
  }

  /** `NewestDeletedIff` for a strictly newest entry, wherever it was listed. */
  lemma NewestListedIff(es: seq<Listed>, e: Listed, ok: set<string>, target: real, n: nat)
    requires Sorted(es) && DistinctKeys(es) && StopsAt(es, ok, target, n)
    requires e in es && forall x :: x in es && x != e ==> x.mtime < e.mtime
    ensures e.key in Deleted(es, ok, n) <==> e.key in ok && (Sum(Stuck(es, ok)) + e.len) as real > target
  {
    hide StopsAt, Deleted;
    NewestIsLast(es, e);
    NewestDeletedIff(es, ok, target, n);
    var k := |es| - 1;
    assert es == es[..k] + [e];
    StuckSnoc(es[..k], e, ok);
    assert e.key in ok ==> Stuck(es, ok) == Stuck(es[..k], ok);
  }

  /** With an older entry that cannot be removed, an entry that fits the target may still go. */
  lemma NewestMayGo()
    ensures var es := [Listed("a", 5, 0), Listed("b", 5, 1)];
            StopsAt(es, {"b"}, 6.0, 2) && "b" in Deleted(es, {"b"}, 2) && 5.0 <= 6.0
  {
    var a, b := Listed("a", 5, 0), Listed("b", 5, 1);
    var es, ok := [a, b], {"b"};
    PairSum(a, b);
    assert es[..1] == [a];
    StuckSnoc([], a, ok);
    SurvivorsStep(es, ok, 0);
    NothingRemoved(es, ok);
    assert es[1].key in Deleted(es, ok, 2);
  }

  lemma PairSum(a: Listed, b: Listed)
    ensures Sum([a, b]) == a.len + b.len
  {
    assert [a, b][1..] == [b] && [b][1..] == [];
    assert Sum([b]) == b.len + Sum([b][1..]);
  }

  /** A strictly newest entry is the last one in removal order. */
  lemma NewestIsLast(es: seq<Listed>, e: Listed)
    requires Sorted(es) && e in es && forall x :: x in es && x != e ==> x.mtime < e.mtime
    ensures es[|es| - 1] == e
  {
    var last := es[|es| - 1];
    var i :| 0 <= i < |es| && es[i] == e;
    assert last in es;
    if i < |es| - 1 {
      assert e.mtime <= last.mtime;
    }
  }

  // ---------------------------------------------------------------- the coin flip

  function Threshold(capacity: nat): nat { if capacity / 16 > 1 then capacity / 16 else 1 }

  /** draw / 2^64 < len / threshold. */
  predicate Triggers(capacity: nat, len: nat, draw: nat) {
    draw * Threshold(capacity) < len * U64
  }

  lemma Scale(a: int, b: int, t: nat)
    requires a <= b
    ensures a * t <= b * t
  {
  }

  /** Of the draws 0, 1, 2, ... exactly the first ceil(len * 2^64 / threshold) trigger a scan, the threshold being a
      sixteenth of the capacity and at least 1. */
  lemma TriggersIff(capacity: nat, len: nat, draw: nat)
    ensures var t := if capacity >= 16 then capacity / 16 else 1;
            Triggers(capacity, len, draw) <==> draw < (len * U64 + t - 1) / t
  {
    var t := if capacity >= 16 then capacity / 16 else 1;
    var n := len * U64;
    var q := (n + t - 1) / t;
    assert q * t <= n + t - 1 < q * t + t;
    if draw < q {
      Scale(draw + 1, q, t);
      assert (draw + 1) * t == draw * t + t;
    } else {
      Scale(q, draw, t);
    }
  }

  /** Every draw triggers a scan exactly when the entry is at least a threshold long. */
  lemma AlwaysTriggersIff(capacity: nat, len: nat)
    requires capacity < U64
    ensures (forall draw :: 0 <= draw < U64 ==> Triggers(capacity, len, draw)) <==> len >= Threshold(capacity)
  {
    var t := Threshold(capacity);
    if len >= t {
      forall draw | 0 <= draw < U64 ensures Triggers(capacity, len, draw) {
        Scale(draw, U64 - 1, t);
        assert (U64 - 1) * t == U64 * t - t;
      }
    } else {
      assert !Triggers(capacity, len, U64 - 1) by {
        assert (U64 - 1) * t == U64 * t - t;
        assert len * U64 <= (t - 1) * U64;
      }
    }
  }
}
