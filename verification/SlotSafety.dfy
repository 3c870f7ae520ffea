/** The slot protocol over whole runs: what holds in every state of every interleaving. */
module SlotSafety {
  import opened Prelude
  import opened SlotProtocol

  lemma StepInv(s: State, a: Action)
    requires Inv(s) && Enabled(s, a)
    ensures Inv(Apply(s, a))
  {
    hide RegApply, DevApply, ScanApply, RegEnabled, DevEnabled, ScanEnabled, Inv;
    if RegEnabled(s, a) {
      RegStep(s, a);
    } else if DevEnabled(s, a) {
      DevStep(s, a);
    } else {
      ScanStep(s, a);
    }
  }

  /** `t` is reached from `s` by the actions `run`, each enabled in turn. */
  ghost predicate Path(s: State, run: seq<Action>, t: State)
    decreases |run|
  {
    if run == [] then s == t else Enabled(s, run[0]) && Path(Apply(s, run[0]), run[1..], t)
  }

  lemma {:induction false} PathInv(s: State, run: seq<Action>, t: State)
    requires Inv(s) && Path(s, run, t)
    ensures Inv(t)
    decreases |run|
  {
    hide Apply, Enabled, Inv;
    if run != [] {
      StepInv(s, run[0]);
      PathInv(Apply(s, run[0]), run[1..], t);
    }
  }

  lemma {:induction false} PathConcat(s: State, p: seq<Action>, m: State, q: seq<Action>, t: State)
    requires Path(s, p, m) && Path(m, q, t)
    ensures Path(s, p + q, t)
    decreases |p|
  {
    hide Apply, Enabled, Inv;
    if p == [] {
      assert p + q == q;
    } else {
      PathConcat(Apply(s, p[0]), p[1..], m, q, t);
      assert (p + q)[1..] == p[1..] + q;
    }
  }

  /** Every state of every interleaving, from any table size. */
  ghost predicate Reachable(t: State) {
    exists n: nat, run: seq<Action> :: Path(Init(n), run, t)
  }

  lemma ReachableInv(t: State)
    requires Reachable(t)
    ensures Inv(t)
  {
    var n: nat, run: seq<Action> :| Path(Init(n), run, t);
    InitInv(n);
    PathInv(Init(n), run, t);
  }

  /** Some registration has claimed `x` and not yet armed or released it. */
  ghost predicate IsClaimed(t: State, x: nat) {
    exists r :: r in t.regs && t.regs[r].Holds() && t.regs[r].slot == x
  }

  /** Each slot is in exactly one of free, claimed, armed and retired-not-recycled, and is there once. */
  lemma SlotsPartitioned(t: State, x: nat)
    requires Reachable(t) && x < t.N()
    ensures One(x in t.free) + One(IsClaimed(t, x)) + One(x in t.active) + One(x in t.retired) == 1
    ensures Distinct(t.free) && Distinct(t.retired)
    ensures forall r, q ::
              r in t.regs && q in t.regs && t.regs[r].Holds() && t.regs[q].Holds() && t.regs[r].slot == x == t.regs[q].slot
              ==> r == q
  {
    ReachableInv(t);
    assert SlotOk(t, x);
    forall r | r in t.regs && t.regs[r].Holds() && t.regs[r].slot == x
      ensures t.place[x] == Claimed(r)
    {
      assert RegOk(t, r);
    }
  }

  /** What is left of the scanner's snapshot is armed, has its payload, and is not the slot in hand. */
  lemma SnapshotArmed(t: State, x: nat)
    requires Reachable(t) && t.scanner.HasBits() && x in t.scanner.bits
    ensures x < |t.payload| && x in t.active && t.payload[x].Some?
    ensures t.scanner.Examining() || t.scanner.Taking? ==> x != t.scanner.slot
  {
    ReachableInv(t);
    assert SlotOk(t, x);
  }

  /** The scanner reads a payload only while it is there. */
  lemma NoEmptyTake(t: State)
    requires Reachable(t) && (t.scanner.Probe? || t.scanner.Clear? || t.scanner.Taking?)
    ensures t.scanner.slot < |t.payload| && t.payload[t.scanner.slot].Some?
  {
    ReachableInv(t);
    assert SlotOk(t, t.scanner.slot);
  }

  /** No payload is handed out twice, and `woken` gets only registrations whose own flag write landed. */
  lemma DeliveredOnce(t: State)
    requires Reachable(t)
    ensures Distinct(t.woken + t.dead)
    ensures forall r :: r in t.woken ==> r in t.writes && t.writes[r].status.Landed?
    ensures forall r :: r in t.dead ==> r in t.writes && !t.writes[r].status.Queued?
    ensures t.signalled <= |t.woken| && t.faulted <= |t.dead|
  {
    ReachableInv(t);
    forall r | r in t.woken || r in t.dead
      ensures PublishedOk(t, r)
    {
      assert RegOk(t, r);
    }
    forall i, j | 0 <= i < |t.woken| && 0 <= j < |t.dead|
      ensures t.woken[i] != t.dead[j]
    {
      assert t.woken[i] in t.woken && t.dead[j] in t.dead;
    }
  }

  /** Nothing published is ever lost: it is armed, in the scanner's hand, woken or dead, and only one of them. */
  lemma PublishedConserved(t: State, r: Rid)
    requires Reachable(t) && IsPublished(t, r)
    ensures r in t.writes && t.writes[r].slot < |t.payload|
    ensures var x := t.writes[r].slot;
            One(x in t.active && t.payload[x] == Some(r))
            + One(t.scanner.Taking? && t.scanner.slot == x && t.payload[x] == Some(r))
            + One(r in t.woken) + One(r in t.dead) == 1
  {
    ReachableInv(t);
    assert RegOk(t, r);
    assert SlotOk(t, t.writes[r].slot);
  }

  /** `n_armed` is set bits + registrants past the increment + retirements not yet subtracted. */
  lemma CounterExact(t: State)
    requires Reachable(t)
    ensures t.nArmed == |t.active| + |InFlight(t)| + t.owed
    ensures t.scanner.Subtract? ==> t.nArmed >= t.owed
    ensures t.nArmed >= 0
  {
    ReachableInv(t);
  }

  /** The scanner commits to parking exactly when nothing is armed and no registrant is between its count and its bit. */
  lemma CommitsIffIdle(t: State)
    requires Reachable(t) && t.scanner.Gate?
    ensures Apply(t, CheckIdle).scanner == if t.active == {} && InFlight(t) == {} then Committed else Top
  {
    CounterExact(t);
    ReachableInv(t);
    assert t.owed == 0;
    hide Inv, InFlight;
    assert Apply(t, CheckIdle) == ScanApply(t, CheckIdle);
    assert t.nArmed == 0 <==> |t.active| == 0 && |InFlight(t)| == 0;
  }

  /** No wakeup is lost between the idle check and the park. */
  lemma NoLostWakeup(t: State)
    requires Reachable(t) && t.scanner.Committed? && t.nArmed > 0
    ensures t.token || exists r :: OwesUnpark(t, r)
  {
    ReachableInv(t);
  }

  /** A scanner asleep without a token, with no registration in progress, has left nothing armed. */
  lemma SleepsOnlyWhenIdle(t: State)
    requires Reachable(t) && t.scanner.Committed? && !t.token
    requires forall r :: r in t.regs ==> t.regs[r].Published? || t.regs[r].Released?
    ensures t.active == {} && t.nArmed == 0
    ensures forall x: nat :: x < t.N() ==> x in t.free
    ensures forall r :: r in t.regs && t.regs[r].Published? ==> r in t.woken || r in t.dead
  {
    ReachableInv(t);
    assert t.active == {};
    forall x: nat | x < t.N() ensures x in t.free { assert SlotOk(t, x); }
    forall r | r in t.regs && t.regs[r].Published? ensures r in t.woken || r in t.dead {
      assert RegOk(t, r);
      assert SlotOk(t, t.writes[r].slot);
    }
  }

  lemma ListsGrowStep(s: State, a: Action)
    requires Enabled(s, a)
    ensures var t := Apply(s, a); s.woken <= t.woken && s.dead <= t.dead
  {
    if RegEnabled(s, a) {
      assert RegApply(s, a).woken == s.woken && RegApply(s, a).dead == s.dead;
    } else if DevEnabled(s, a) {
      assert DevApply(s, a).woken == s.woken && DevApply(s, a).dead == s.dead;
    } else if !a.TakePayload? {
      assert ScanApply(s, a).woken == s.woken && ScanApply(s, a).dead == s.dead;
    }
  }

  /** Deliveries are never revoked: the lists only grow along a run. */
  lemma {:induction false} ListsGrow(s: State, run: seq<Action>, t: State)
    requires Path(s, run, t)
    ensures s.woken <= t.woken && s.dead <= t.dead
    decreases |run|
  {
    hide Apply, Enabled;
    if run != [] {
      ListsGrowStep(s, run[0]);
      ListsGrow(Apply(s, run[0]), run[1..], t);
    }
  }
}
