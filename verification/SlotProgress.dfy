/** A landed slot is delivered by the next pass, whatever else happens meanwhile. */
module SlotProgress {
  import opened Prelude
  import opened SlotProtocol
  import opened SlotSafety

  /** A scanner at `c` will still come to slot `x` before its pass is over (a pass not begun counts). */
  ghost predicate Ahead(c: Scanner, x: nat) {
    match c
    case Top => true
    case Words(w) => w <= x / 64
    case Bits(w, bits) => w < x / 64 || x in bits
    case AtSlot(w, bits, slot) => w < x / 64 || x in bits || slot == x
    case Probe(w, bits, slot) => slot != x && (w < x / 64 || x in bits)
    case Clear(w, bits, slot, landed) => if slot == x then landed else w < x / 64 || x in bits
    case Taking(w, bits, slot, _) => slot != x && (w < x / 64 || x in bits)
    case _ => false
  }

  /** Registration `r`'s flag write has landed in slot `x`, and `r` is delivered, in the scanner's hand, or armed with the
      scanner still to come. */
  ghost predicate Due(s: State, r: Rid, x: nat) {
    || r in s.woken
    || (s.scanner.Taking? && s.scanner.landed && s.scanner.slot == x && x < |s.payload| && s.payload[x] == Some(r))
    || (x < |s.place| && s.place[x] == Armed(r) && HasWrite(s, r, x) && s.writes[r].status.Landed? && Ahead(s.scanner, x))
  }

  /** A registrant writes only the cell of a slot it has claimed. */
  lemma RegKeepsCell(s: State, a: Action, x: nat)
    requires Inv(s) && RegEnabled(s, a)
    ensures |RegApply(s, a).payload| == |s.payload|
    ensures x < s.N() && s.place[x].Retired? ==> x < |s.payload| && RegApply(s, a).payload[x] == s.payload[x]
    ensures x < s.N() && s.scanner.Taking? && s.scanner.slot == x ==> s.place[x].Retired?
  {
    RegFacts(s, a);
    if x < s.N() { SlotFact(s, x); }
    hide SlotsOk, RegsOk;
  }

  lemma RegDue(s: State, a: Action, r: Rid, x: nat)
    requires Inv(s) && RegEnabled(s, a) && Due(s, r, x)
    ensures Due(RegApply(s, a), r, x)
  {
    RegFacts(s, a);
    RegFrame(s, a);
    if x < s.N() { SlotFact(s, x); }
    RegKeepsCell(s, a, x);
    hide Inv, SlotOk, RegApply, RegEnabled;
  }

  lemma DevDue(s: State, a: Action, r: Rid, x: nat)
    requires DevEnabled(s, a) && Due(s, r, x)
    ensures Due(DevApply(s, a), r, x)
  {
  }

  lemma TakeDue(s: State, r: Rid, x: nat)
    requires ScanEnabled(s, TakePayload) && Due(s, r, x)
    ensures Due(ScanApply(s, TakePayload), r, x)
  {
    var t := ScanApply(s, TakePayload);
    if r !in s.woken && s.scanner.landed && s.scanner.slot == x && s.payload[x] == Some(r) {
      assert t.woken[|s.woken|] == r;
    }
  }

  lemma ClearDue(s: State, r: Rid, x: nat)
    requires ScanEnabled(s, ClearBit) && Due(s, r, x) && (x < |s.payload| && IsArmedFor(s, r, x) ==> s.payload[x] == Some(r))
    requires |s.place| == |s.payload| && s.scanner.slot !in s.scanner.bits
    ensures Due(ScanApply(s, ClearBit), r, x)
  {
  }

  ghost predicate IsArmedFor(s: State, r: Rid, x: nat) { x < |s.place| && s.place[x] == Armed(r) }

  lemma WordOf(x: nat, n: nat)
    requires x < n
    ensures x / 64 < (n + 63) / 64
  {
    assert x / 64 <= (n - 1) / 64 && (n - 1 + 64) / 64 == (n - 1) / 64 + 1;
  }

  /** The remaining scanner steps leave slots and registrations alone. */
  lemma WalkDue(s: State, a: Action, r: Rid, x: nat)
    requires ScanEnabled(s, a) && Due(s, r, x) && !a.TakePayload? && !a.ClearBit? && !a.Append?
    requires IsArmedFor(s, r, x) ==> x < s.N() && x in s.active
    requires IsArmedFor(s, r, x) && HasWrite(s, r, x) && s.writes[r].status.Landed? ==> s.flag[x]
    ensures Due(ScanApply(s, a), r, x)
  {
    if a.FinishWords? && x < s.N() { WordOf(x, s.N()); }
    assert IsArmedFor(s, r, x) && a.LoadWord? && s.scanner.word == x / 64 ==> x in WordBits(s, s.scanner.word);
  }

  lemma ScanDue(s: State, a: Action, r: Rid, x: nat)
    requires Inv(s) && ScanEnabled(s, a) && Due(s, r, x)
    ensures Due(ScanApply(s, a), r, x)
  {
    if x < s.N() { SlotFact(s, x); }
    if a.TakePayload? {
      hide Inv;
      TakeDue(s, r, x);
    } else if a.ClearBit? {
      ClearDue(s, r, x);
    } else if !a.Append? {
      hide Inv;
      WalkDue(s, a, r, x);
    }
  }

  lemma StepDue(s: State, a: Action, r: Rid, x: nat)
    requires Inv(s) && Enabled(s, a) && Due(s, r, x)
    ensures Due(Apply(s, a), r, x)
  {
    hide Inv, Due, RegApply, DevApply, ScanApply;
    if RegEnabled(s, a) {
      RegDue(s, a, r, x);
    } else if DevEnabled(s, a) {
      DevDue(s, a, r, x);
    } else {
      ScanDue(s, a, r, x);
    }
  }

  lemma {:induction false} PathDue(s: State, run: seq<Action>, t: State, r: Rid, x: nat)
    requires Inv(s) && Path(s, run, t) && Due(s, r, x)
    ensures Inv(t) && Due(t, r, x)
    decreases |run|
  {
    hide Inv, Due, Apply, Enabled;
    if run != [] {
      StepInv(s, run[0]);
      StepDue(s, run[0], r, x);
      PathDue(Apply(s, run[0]), run[1..], t, r, x);
    }
  }

  /** If a registration is armed with its write landed before a pass begins, then by the time a pass has walked every word
      it is in `woken`, however registrants, device and scanner interleave. */
  lemma DeliveredByNextPass(s: State, run: seq<Action>, t: State, r: Rid, x: nat)
    requires Reachable(s) && s.scanner.Top? && x < |s.place| && s.place[x] == Armed(r)
    requires r in s.writes && s.writes[r].status.Landed?
    requires Path(s, run, t)
    requires t.scanner.Recycle? || t.scanner.Subtract? || t.scanner.Waking? || t.scanner.Gate? || t.scanner.Committed?
    ensures r in t.woken
  {
    ReachableInv(s);
    SlotFact(s, x);
    PathDue(s, run, t, r, x);
  }

  // ---------------------------------------------------------------- condemned payloads

  /** Registration `r` of slot `x` is in `dead`, or the scanner has judged it dead and is on its way to putting it there. */
  ghost predicate Doomed(s: State, r: Rid, x: nat) {
    || r in s.dead
    || (s.scanner.Clear? && !s.scanner.landed && s.scanner.slot == x && IsArmedFor(s, r, x))
    || (s.scanner.Taking? && !s.scanner.landed && s.scanner.slot == x && x < |s.payload| && s.payload[x] == Some(r))
  }

  lemma RegDoomed(s: State, a: Action, r: Rid, x: nat)
    requires Inv(s) && RegEnabled(s, a) && Doomed(s, r, x)
    ensures Doomed(RegApply(s, a), r, x)
  {
    RegFacts(s, a);
    RegFrame(s, a);
    if x < s.N() { SlotFact(s, x); }
    RegKeepsCell(s, a, x);
    hide Inv, SlotOk, RegApply, RegEnabled;
  }

  lemma WalkDoomed(s: State, a: Action, r: Rid, x: nat)
    requires ScanEnabled(s, a) && Doomed(s, r, x) && Shape(s)
    requires IsArmedFor(s, r, x) ==> s.payload[x] == Some(r)
    ensures Doomed(ScanApply(s, a), r, x)
  {
    if a.TakePayload? && r !in s.dead {
      assert ScanApply(s, a).dead[|s.dead|] == r;
    }
  }

  lemma ScanDoomed(s: State, a: Action, r: Rid, x: nat)
    requires Inv(s) && ScanEnabled(s, a) && Doomed(s, r, x)
    ensures Doomed(ScanApply(s, a), r, x)
  {
    if x < s.N() { SlotFact(s, x); }
    hide ScanApply, ScanEnabled, Doomed, SlotsOk, RegsOk;
    WalkDoomed(s, a, r, x);
  }

  lemma StepDoomed(s: State, a: Action, r: Rid, x: nat)
    requires Inv(s) && Enabled(s, a) && Doomed(s, r, x)
    ensures Doomed(Apply(s, a), r, x)
  {
    if RegEnabled(s, a) {
      RegDoomed(s, a, r, x);
    } else if DevEnabled(s, a) {
      hide Inv;
      assert DevApply(s, a) == s.(flag := DevApply(s, a).flag, writes := DevApply(s, a).writes);
    } else {
      hide Inv, Doomed, ScanApply;
      ScanDoomed(s, a, r, x);
    }
  }

  lemma {:induction false} PathDoomed(s: State, run: seq<Action>, t: State, r: Rid, x: nat)
    requires Inv(s) && Path(s, run, t) && Doomed(s, r, x)
    ensures Doomed(t, r, x)
    decreases |run|
  {
    hide Inv, Doomed, Apply, Enabled;
    if run != [] {
      StepInv(s, run[0]);
      StepDoomed(s, run[0], r, x);
      PathDoomed(Apply(s, run[0]), run[1..], t, r, x);
    }
  }

  /** Once a probe has judged the payload of an armed slot dead, the payload is in `dead` by the time the pass has walked
      every word, however registrants, device and scanner interleave. */
  lemma CondemnedByPassEnd(s: State, run: seq<Action>, t: State, r: Rid, x: nat)
    requires Reachable(s) && s.scanner.Probe? && s.scanner.slot == x && x < |s.place| && s.place[x] == Armed(r)
    requires Enabled(s, Verdict(true)) && Path(Apply(s, Verdict(true)), run, t)
    requires t.scanner.Recycle? || t.scanner.Subtract? || t.scanner.Waking? || t.scanner.Gate? || t.scanner.Committed?
    ensures r in t.dead
  {
    ReachableInv(s);
    StepInv(s, Verdict(true));
    hide Inv;
    PathDoomed(Apply(s, Verdict(true)), run, t, r, x);
  }
}
