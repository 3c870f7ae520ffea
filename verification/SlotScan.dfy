/** What one undisturbed scan pass does, and that it is a run of the slot protocol. */
module SlotScan {
  import opened Prelude
  import opened SlotProtocol
  import opened SlotSafety

  /** `t` can be reached from `s`. */
  ghost predicate Leads(s: State, t: State) {
    exists run :: Path(s, run, t)
  }

  lemma Stay(s: State)
    ensures Leads(s, s)
  {
    assert Path(s, [], s);
  }

  lemma Chain(s: State, m: State, t: State)
    requires Leads(s, m) && Leads(m, t)
    ensures Leads(s, t)
  {
    var p :| Path(s, p, m);
    var q :| Path(m, q, t);
    PathConcat(s, p, m, q, t);
  }

  lemma Move(s: State, a: Action)
    requires Inv(s) && Enabled(s, a)
    ensures Inv(Apply(s, a)) && Leads(s, Apply(s, a))
  {
    StepInv(s, a);
    hide Enabled, Apply, Inv;
    assert [a][1..] == [];
    assert Path(Apply(s, a), [], Apply(s, a));
    assert Path(s, [a], Apply(s, a));
  }

  lemma ScanMove(s: State, a: Action)
    requires Inv(s) && ScanEnabled(s, a)
    ensures Inv(ScanApply(s, a)) && Leads(s, ScanApply(s, a))
  {
    assert !RegEnabled(s, a) && !DevEnabled(s, a) && Apply(s, a) == ScanApply(s, a);
    hide ScanApply, Inv, ScanEnabled;
    Move(s, a);
  }

  /** The scan's judgement of slot `x`: its flag landed, or the pass probes and the payload is dead. */
  predicate Retires(s: State, x: nat, isDead: Rid -> bool)
    requires x < |s.flag| && x < |s.payload|
  {
    s.flag[x] || (s.probing && s.payload[x].Some? && isDead(s.payload[x].value))
  }

  /** The table after slot `x` is retired, with the scanner left where it is. */
  function RetireSlot(s: State, x: nat): State
    requires Shape(s) && x < s.N() && s.payload[x].Some?
  {
    var p := s.payload[x].value;
    var t := s.(active := s.active - {x}, retired := s.retired + [x], owed := s.owed + 1,
                place := s.place[x := Retire(s.place[x])], payload := s.payload[x := None]);
    if s.flag[x] then t.(woken := s.woken + [p], progress := true) else t.(dead := s.dead + [p])
  }

  /** The table after the scan has looked at slot `x`. */
  function Examined(s: State, x: nat, isDead: Rid -> bool): State
    requires Shape(s) && x < s.N() && s.payload[x].Some?
  {
    if Retires(s, x, isDead) then RetireSlot(s, x) else s
  }

  lemma RetireRun(s: State)
    requires Inv(s) && s.scanner.Clear?
    requires Shape(s) && s.scanner.slot < s.N() && s.payload[s.scanner.slot].Some?
    requires s.scanner.landed == s.flag[s.scanner.slot]
    ensures var t := RetireSlot(s, s.scanner.slot).(scanner := Bits(s.scanner.word, s.scanner.bits));
            Inv(t) && Leads(s, t)
  {
    hide Inv, Leads;
    var m := ScanApply(s, ClearBit);
    ScanMove(s, ClearBit);
    ScanMove(m, TakePayload);
    Chain(s, m, ScanApply(m, TakePayload));
  }

  /** Loading a snapshot bit and its flag. */
  lemma LoadRun(s: State, x: nat)
    requires Inv(s) && s.scanner.Bits? && x in s.scanner.bits && x < |s.flag|
    ensures var w, b := s.scanner.word, s.scanner.bits - {x};
            var t := s.(scanner := if s.flag[x] then Clear(w, b, x, true) else if s.probing then Probe(w, b, x) else Bits(w, b));
            Inv(t) && Leads(s, t)
  {
    hide Inv, Leads;
    var a := ScanApply(s, TakeBit(x));
    ScanMove(s, TakeBit(x));
    ScanMove(a, LoadFlag);
    Chain(s, a, ScanApply(a, LoadFlag));
  }

  /** Looking at one snapshot bit is a run of the protocol. */
  lemma ExamineRun(s: State, x: nat, isDead: Rid -> bool)
    requires Inv(s) && Shape(s) && s.scanner.Bits? && x in s.scanner.bits && x < s.N() && s.payload[x].Some?
    requires isDead(s.payload[x].value) ==> MayDie(s, x)
    ensures var t := Examined(s, x, isDead).(scanner := Bits(s.scanner.word, s.scanner.bits - {x}));
            Inv(t) && Leads(s, t)
  {
    hide Inv, Leads;
    var w, b := s.scanner.word, s.scanner.bits - {x};
    LoadRun(s, x);
    if s.flag[x] {
      var c := s.(scanner := Clear(w, b, x, true));
      RetireRun(c);
      Chain(s, c, RetireSlot(c, x).(scanner := Bits(w, b)));
    } else if s.probing {
      var m := s.(scanner := Probe(w, b, x));
      var v := Verdict(isDead(s.payload[x].value));
      ScanMove(m, v);
      Chain(s, m, ScanApply(m, v));
      if isDead(s.payload[x].value) {
        var c := s.(scanner := Clear(w, b, x, false));
        RetireRun(c);
        Chain(s, c, RetireSlot(c, x).(scanner := Bits(w, b)));
      }
    }
  }

  // ---------------------------------------------------------------- the whole pass

  ghost predicate HasPayloads(s: State) {
    Shape(s) && forall x :: x in s.active ==> x < s.N() && s.payload[x].Some?
  }

  /** Looking at the armed slots below `lim`, in ascending order. */
  ghost function Scanned(s: State, lim: nat, isDead: Rid -> bool): (t: State)
    requires HasPayloads(s) && lim <= s.N()
    ensures t.active <= s.active && Shape(t) && t.flag == s.flag && t.probing == s.probing
    ensures forall x :: lim <= x < s.N() ==> t.payload[x] == s.payload[x] && (x in t.active <==> x in s.active)
  {
    if lim == 0 then s
    else
      var t := Scanned(s, lim - 1, isDead);
      if lim - 1 in s.active then Examined(t, lim - 1, isDead) else t
  }

  lemma RetireFields(s: State, x: nat)
    requires Shape(s) && x < s.N() && s.payload[x].Some?
    ensures var t := RetireSlot(s, x);
            && t.retired == s.retired + [x] && t.owed == s.owed + 1 && t.active == s.active - {x}
            && t.payload == s.payload[x := None]
            && t.woken == s.woken + (if s.flag[x] then [s.payload[x].value] else [])
            && t.dead == s.dead + (if s.flag[x] then [] else [s.payload[x].value])
  {
  }

  lemma RetireFrame(s: State, x: nat)
    requires Shape(s) && x < s.N() && s.payload[x].Some?
    ensures var t := RetireSlot(s, x);
            t == s.(active := t.active, retired := t.retired, owed := t.owed, place := t.place, payload := t.payload,
                    woken := t.woken, dead := t.dead, progress := t.progress)
  {
  }

  lemma ScannedNone(s: State, isDead: Rid -> bool)
    requires HasPayloads(s)
    ensures Scanned(s, 0, isDead) == s
  {
  }

  lemma ScannedStep(s: State, lim: nat, isDead: Rid -> bool)
    requires HasPayloads(s) && lim < s.N()
    ensures Scanned(s, lim, isDead).payload[lim] == s.payload[lim]
    ensures lim in s.active ==> s.payload[lim].Some?
    ensures Scanned(s, lim + 1, isDead) == if lim in s.active && Retires(s, lim, isDead)
                                           then RetireSlot(Scanned(s, lim, isDead), lim) else Scanned(s, lim, isDead)
  {
  }

  lemma {:induction false} SkipUnarmed(s: State, lo: nat, hi: nat, isDead: Rid -> bool)
    requires HasPayloads(s) && lo <= hi <= s.N() && forall x :: lo <= x < hi ==> x !in s.active
    ensures Scanned(s, hi, isDead) == Scanned(s, lo, isDead)
    decreases hi - lo
  {
    if lo < hi {
      SkipUnarmed(s, lo, hi - 1, isDead);
    }
  }

  /** The slots below `lim` that the pass retires, in ascending order. */
  function Retirees(s: State, lim: nat, isDead: Rid -> bool): (r: seq<nat>)
    requires |s.flag| == |s.payload| && lim <= |s.flag|
  {
    if lim == 0 then []
    else
      Retirees(s, lim - 1, isDead)
      + if lim - 1 in s.active && Retires(s, lim - 1, isDead) then [lim - 1] else []
  }

  /** The payloads of the slots below `lim` whose flag landed (or, for `landed` false, that are dead), in slot order. */
  function Payloads(s: State, lim: nat, isDead: Rid -> bool, landed: bool): seq<Rid>
    requires |s.flag| == |s.payload| && lim <= |s.flag|
  {
    if lim == 0 then []
    else
      var x := lim - 1;
      Payloads(s, x, isDead, landed)
      + if x in s.active && Retires(s, x, isDead) && s.flag[x] == landed && s.payload[x].Some?
        then [s.payload[x].value] else []
  }

  lemma {:induction false} RetireesAre(s: State, lim: nat, isDead: Rid -> bool)
    requires |s.flag| == |s.payload| && lim <= |s.flag|
    ensures forall x :: x in Retirees(s, lim, isDead) <==> 0 <= x < lim && x in s.active && Retires(s, x, isDead)
    decreases lim
  {
    hide Retires;
    if lim > 0 {
      RetireesAre(s, lim - 1, isDead);
    }
  }

  ghost predicate Ascending(r: seq<nat>, lim: nat) {
    (forall i, j :: 0 <= i < j < |r| ==> r[i] < r[j]) && forall i :: 0 <= i < |r| ==> r[i] < lim
  }

  /** A pass retires an armed slot exactly when its flag landed, or the pass probes and the payload is dead. */
  lemma RetiredIff(b: State, isDead: Rid -> bool, x: nat)
    requires HasPayloads(b) && x in b.active
    ensures x in Retirees(b, b.N(), isDead) <==> b.flag[x] || (b.probing && isDead(b.payload[x].value))
  {
    RetireesAre(b, b.N(), isDead);
  }

  /** `ps` lists the payloads of the slots in `chosen`, once each and in slot order. */
  ghost predicate InSlotOrder(payload: seq<Option<Rid>>, chosen: set<nat>, ps: seq<Rid>) {
    exists ix: seq<nat> :: IndexedBy(payload, chosen, ps, ix)
  }

  ghost predicate IndexedBy(payload: seq<Option<Rid>>, chosen: set<nat>, ps: seq<Rid>, ix: seq<nat>) {
    && Ascending(ix, |payload|) && (forall x :: x in ix <==> x in chosen)
    && |ps| == |ix| && forall i :: 0 <= i < |ix| ==> payload[ix[i]] == Some(ps[i])
  }

  /** The slots below `lim` whose payloads `Payloads` lists. */
  function Chosen(s: State, lim: nat, isDead: Rid -> bool, landed: bool): seq<nat>
    requires |s.flag| == |s.payload| && lim <= |s.flag|
  {
    if lim == 0 then []
    else
      Chosen(s, lim - 1, isDead, landed)
      + if lim - 1 in s.active && Retires(s, lim - 1, isDead) && s.flag[lim - 1] == landed then [lim - 1] else []
  }

  lemma {:induction false} ChosenAre(s: State, lim: nat, isDead: Rid -> bool, landed: bool)
    requires |s.flag| == |s.payload| && lim <= |s.flag|
    ensures forall x :: x in Chosen(s, lim, isDead, landed)
                        <==> 0 <= x < lim && x in s.active && Retires(s, x, isDead) && s.flag[x] == landed
    decreases lim
  {
    hide Retires;
    if lim > 0 {
      ChosenAre(s, lim - 1, isDead, landed);
    }
  }

  lemma {:induction false} ChosenAscend(s: State, lim: nat, isDead: Rid -> bool, landed: bool)
    requires |s.flag| == |s.payload| && lim <= |s.flag|
    ensures Ascending(Chosen(s, lim, isDead, landed), lim)
    decreases lim
  {
    hide Retires;
    if lim > 0 {
      ChosenAscend(s, lim - 1, isDead, landed);
    }
  }

  lemma {:induction false} PayloadsOfChosen(s: State, lim: nat, isDead: Rid -> bool, landed: bool)
    requires HasPayloads(s) && lim <= s.N()
    ensures var ix, ps := Chosen(s, lim, isDead, landed), Payloads(s, lim, isDead, landed);
            |ix| == |ps| && forall i :: 0 <= i < |ix| ==> ix[i] < s.N() && s.payload[ix[i]] == Some(ps[i])
    decreases lim
  {
    hide Retires;
    if lim > 0 {
      PayloadsOfChosen(s, lim - 1, isDead, landed);
    }
  }

  lemma HandedOutAs(b: State, isDead: Rid -> bool, landed: bool, chosen: set<nat>)
    requires HasPayloads(b)
    requires forall x :: x in chosen <==> 0 <= x < b.N() && x in b.active && Retires(b, x, isDead) && b.flag[x] == landed
    ensures InSlotOrder(b.payload, chosen, Payloads(b, b.N(), isDead, landed))
  {
    ChosenAre(b, b.N(), isDead, landed);
    ChosenAscend(b, b.N(), isDead, landed);
    PayloadsOfChosen(b, b.N(), isDead, landed);
    hide Chosen, Payloads, Ascending, Retires, HasPayloads;
    assert IndexedBy(b.payload, chosen, Payloads(b, b.N(), isDead, landed), Chosen(b, b.N(), isDead, landed));
  }

  /** A pass hands out, in slot order, the payloads whose flag landed as woken, and as dead those it probed, found dead and
      whose flag had not landed. */
  lemma HandedOut(b: State, isDead: Rid -> bool)
    requires HasPayloads(b)
    ensures InSlotOrder(b.payload, (set x | x in b.active && b.flag[x]), Payloads(b, b.N(), isDead, true))
    ensures InSlotOrder(b.payload, (set x | x in b.active && !b.flag[x] && b.probing && isDead(b.payload[x].value)),
                        Payloads(b, b.N(), isDead, false))
  {
    hide Payloads, InSlotOrder;
    HandedOutAs(b, isDead, true, set x | x in b.active && b.flag[x]);
    HandedOutAs(b, isDead, false, set x | x in b.active && !b.flag[x] && b.probing && isDead(b.payload[x].value));
  }

  /** A pass leaves everything but the retirement bookkeeping alone. */
  lemma {:induction false} ScannedFrame(s: State, lim: nat, isDead: Rid -> bool)
    requires HasPayloads(s) && lim <= s.N()
    ensures var t := Scanned(s, lim, isDead);
            t == s.(active := t.active, retired := t.retired, owed := t.owed, place := t.place, payload := t.payload,
                    woken := t.woken, dead := t.dead, progress := t.progress)
    decreases lim
  {
    hide Retires, HasPayloads, Scanned, RetireSlot;
    if lim == 0 {
      ScannedNone(s, isDead);
    } else {
      ScannedStep(s, lim - 1, isDead);
      if lim - 1 in s.active { RetireFrame(Scanned(s, lim - 1, isDead), lim - 1); }
      ScannedFrame(s, lim - 1, isDead);
    }
  }

  lemma {:induction false} ScannedRetired(s: State, lim: nat, isDead: Rid -> bool)
    requires HasPayloads(s) && lim <= s.N()
    ensures var t, r := Scanned(s, lim, isDead), Retirees(s, lim, isDead);
            t.retired == s.retired + r && t.owed == s.owed + |r|
    decreases lim
  {
    hide Retires, HasPayloads, Scanned, RetireSlot;
    if lim == 0 {
      ScannedNone(s, isDead);
    } else {
      ScannedStep(s, lim - 1, isDead);
      if lim - 1 in s.active { RetireFields(Scanned(s, lim - 1, isDead), lim - 1); }
      ScannedRetired(s, lim - 1, isDead);
    }
  }

  /** A pass hands out the payloads of what it retires in slot order: the landed ones, and the dead ones. */
  lemma {:induction false} ScannedWoken(s: State, lim: nat, isDead: Rid -> bool)
    requires HasPayloads(s) && lim <= s.N()
    ensures Scanned(s, lim, isDead).woken == s.woken + Payloads(s, lim, isDead, true)
    decreases lim
  {
    hide Retires, HasPayloads, Scanned, RetireSlot;
    if lim == 0 {
      ScannedNone(s, isDead);
    } else {
      ScannedStep(s, lim - 1, isDead);
      if lim - 1 in s.active { RetireFields(Scanned(s, lim - 1, isDead), lim - 1); }
      ScannedWoken(s, lim - 1, isDead);
    }
  }

  lemma {:induction false} ScannedDead(s: State, lim: nat, isDead: Rid -> bool)
    requires HasPayloads(s) && lim <= s.N()
    ensures Scanned(s, lim, isDead).dead == s.dead + Payloads(s, lim, isDead, false)
    decreases lim
  {
    hide Retires, HasPayloads, Scanned, RetireSlot;
    if lim == 0 {
      ScannedNone(s, isDead);
    } else {
      ScannedStep(s, lim - 1, isDead);
      if lim - 1 in s.active { RetireFields(Scanned(s, lim - 1, isDead), lim - 1); }
      ScannedDead(s, lim - 1, isDead);
    }
  }

  /** A pass clears the bit and the payload of exactly the slots it retires. */
  lemma {:induction false} ScannedSlot(s: State, lim: nat, isDead: Rid -> bool, x: nat)
    requires HasPayloads(s) && lim <= s.N() && x < s.N()
    ensures var t, gone := Scanned(s, lim, isDead), x < lim && x in s.active && Retires(s, x, isDead);
            && (x in t.active <==> x in s.active && !gone)
            && t.payload[x] == if gone then None else s.payload[x]
    decreases lim
  {
    hide Retires, HasPayloads, Scanned, RetireSlot;
    if lim == 0 {
      ScannedNone(s, isDead);
    } else {
      ScannedStep(s, lim - 1, isDead);
      if lim - 1 in s.active { RetireFields(Scanned(s, lim - 1, isDead), lim - 1); }
      ScannedSlot(s, lim - 1, isDead, x);
    }
  }

  lemma {:induction false} RetireesAscend(s: State, lim: nat, isDead: Rid -> bool)
    requires |s.flag| == |s.payload| && lim <= |s.flag|
    ensures Ascending(Retirees(s, lim, isDead), lim)
    decreases lim
  {
    hide Retires;
    if lim > 0 {
      RetireesAscend(s, lim - 1, isDead);
    }
  }

  /** A whole pass: it retires exactly the armed slots judged landed or dead, in slot order, and nothing else changes. */
  lemma PassIs(b: State, isDead: Rid -> bool)
    requires HasPayloads(b) && b.retired == []
    ensures var t, r := Scanned(b, b.N(), isDead), Retirees(b, b.N(), isDead);
            && t.retired == r && Shape(t)
            && t.woken == b.woken + Payloads(b, b.N(), isDead, true)
            && t.dead == b.dead + Payloads(b, b.N(), isDead, false)
            && t.active == (set x | x in b.active && x !in r)
            && forall x :: 0 <= x < b.N() ==> t.payload[x] == if x in r then None else b.payload[x]
  {
    ScannedRetired(b, b.N(), isDead);
    ScannedWoken(b, b.N(), isDead);
    ScannedDead(b, b.N(), isDead);
    RetireesAre(b, b.N(), isDead);
    hide Payloads, Retires;
    var t, r := Scanned(b, b.N(), isDead), Retirees(b, b.N(), isDead);
    forall x: nat | x < b.N()
      ensures (x in t.active <==> x in b.active && x !in r) && t.payload[x] == if x in r then None else b.payload[x]
    {
      ScannedSlot(b, b.N(), isDead, x);
    }
  }

  /** A pass over the table `s` frees the slots `gone` and hands out `woken` and `dead`: a slot goes exactly when it is armed
      and its flag landed, or it is armed, its flag has not landed, the pass probes and the payload is dead. Payloads of the
      first kind are woken and those of the second dead, each list in slot order. */
  ghost predicate Took(s: State, probing: bool, isDead: Rid -> bool, gone: seq<nat>, woken: seq<Rid>, dead: seq<Rid>)
    requires HasPayloads(s)
  {
    var hit := set x | x in s.active && s.flag[x];
    var lost := set x | x in s.active && !s.flag[x] && probing && isDead(s.payload[x].value);
    && Ascending(gone, s.N()) && (forall x :: x in gone <==> x in hit || x in lost)
    && InSlotOrder(s.payload, hit, woken) && InSlotOrder(s.payload, lost, dead)
  }

  lemma PassTakes(s: State, probing: bool, isDead: Rid -> bool)
    requires HasPayloads(s)
    ensures var b := Begun(s, probing);
            && HasPayloads(b) && b.N() == s.N()
            && Took(s, probing, isDead, Retirees(b, s.N(), isDead),
                    Payloads(b, s.N(), isDead, true), Payloads(b, s.N(), isDead, false))
  {
    var b := Begun(s, probing);
    HandedOut(b, isDead);
    RetireesAscend(b, b.N(), isDead);
    RetireesAre(b, b.N(), isDead);
    hide Retirees, Payloads, InSlotOrder, Ascending;
    assert (set x | x in b.active && b.flag[x]) == set x | x in s.active && s.flag[x];
    assert (set x | x in b.active && !b.flag[x] && b.probing && isDead(b.payload[x].value))
        == set x | x in s.active && !s.flag[x] && probing && isDead(s.payload[x].value);
  }

  // ---------------------------------------------------------------- following the loops

  /** A scan that has looked at every slot below `lim` and now stands at `c`. */
  ghost function ScanAt(b: State, lim: nat, isDead: Rid -> bool, c: Scanner): State
    requires HasPayloads(b) && lim <= b.N()
  {
    Scanned(b, lim, isDead).(scanner := c)
  }

  /** A probe may only condemn payloads whose flag write can no longer execute. */
  ghost predicate Condemns(b: State, isDead: Rid -> bool) {
    forall x :: x in b.active && x < |b.payload| && b.payload[x].Some? && isDead(b.payload[x].value) ==> MayDie(b, x)
  }

  /** One turn of the bit loop. */
  lemma ScanBit(b: State, lim: nat, w: nat, bits: set<nat>, x: nat, isDead: Rid -> bool)
    requires HasPayloads(b) && Condemns(b, isDead) && lim <= x < b.N() && x in bits && x in b.active
    requires Inv(ScanAt(b, lim, isDead, Bits(w, bits)))
    requires forall y :: lim <= y < x ==> y !in b.active
    ensures var cur, next := ScanAt(b, lim, isDead, Bits(w, bits)), ScanAt(b, x + 1, isDead, Bits(w, bits - {x}));
            && Inv(next) && Leads(cur, next) && Shape(cur) && cur.N() == b.N() && cur.payload[x] == b.payload[x]
            && next == (if Retires(b, x, isDead) then RetireSlot(cur, x) else cur).(scanner := Bits(w, bits - {x}))
  {
    hide Inv, Leads, RetireSlot;
    SkipUnarmed(b, lim, x, isDead);
    ScannedStep(b, x, isDead);
    ScannedFrame(b, x, isDead);
    var cur := ScanAt(b, lim, isDead, Bits(w, bits));
    assert b.payload[x].Some? && cur.payload[x] == b.payload[x] && cur.writes == b.writes;
    ExamineRun(cur, x, isDead);
    RetireIgnoresScanner(Scanned(b, x, isDead), x, Bits(w, bits));
  }

  lemma RetireIgnoresScanner(s: State, x: nat, c: Scanner)
    requires Shape(s) && x < s.N() && s.payload[x].Some?
    ensures RetireSlot(s.(scanner := c), x) == RetireSlot(s, x).(scanner := c)
  {
    var t := s.(scanner := c);
    var p := s.payload[x].value;
    var u := s.(active := s.active - {x}, retired := s.retired + [x], owed := s.owed + 1,
                place := s.place[x := Retire(s.place[x])], payload := s.payload[x := None]);
    hide Retire;
    if s.flag[x] {
      assert RetireSlot(t, x) == u.(scanner := c, woken := s.woken + [p], progress := true);
    } else {
      assert RetireSlot(t, x) == u.(scanner := c, dead := s.dead + [p]);
    }
  }

  /** Entering a word: the snapshot is the armed slots of that word. */
  lemma ScanWord(b: State, lim: nat, w: nat, isDead: Rid -> bool)
    requires HasPayloads(b) && lim <= b.N() && w < b.NumWords() && Inv(ScanAt(b, lim, isDead, Words(w)))
    ensures var cur := ScanAt(b, lim, isDead, Words(w));
            var next := ScanAt(b, lim, isDead, Bits(w, WordBits(cur, w)));
            Inv(next) && Leads(cur, next)
  {
    hide Inv, Leads;
    ScanMove(ScanAt(b, lim, isDead, Words(w)), LoadWord);
  }

  /** Leaving a word once the snapshot is used up. */
  lemma ScanNext(b: State, lim: nat, hi: nat, w: nat, isDead: Rid -> bool)
    requires HasPayloads(b) && lim <= hi <= b.N() && Inv(ScanAt(b, lim, isDead, Bits(w, {})))
    requires forall y :: lim <= y < hi ==> y !in b.active
    ensures var cur, next := ScanAt(b, lim, isDead, Bits(w, {})), ScanAt(b, hi, isDead, Words(w + 1));
            Inv(next) && Leads(cur, next) && next == cur.(scanner := Words(w + 1))
  {
    hide Inv, Leads;
    SkipUnarmed(b, lim, hi, isDead);
    ScanMove(ScanAt(b, lim, isDead, Bits(w, {})), NextWord);
  }

  /** The table once the pass is over: retired slots are free again and no longer counted. */
  function Finished(s: State): State {
    if s.retired == [] then s.(scanner := Waking)
    else
      s.(scanner := Waking, free := s.free + s.retired, retired := [], nArmed := s.nArmed - s.owed, owed := 0,
         place := Recycled(s.place, s.retired))
  }

  lemma OwedCounted(s: State)
    requires Inv(s)
    ensures s.owed <= s.nArmed && (s.scanner.Words? ==> s.owed == |s.retired|)
  {
    hide SlotsOk, RegsOk, ParkOk, Lists;
  }

  lemma FinishRun(s: State)
    requires Inv(s) && s.scanner.Words? && s.scanner.word >= s.NumWords()
    ensures Inv(Finished(s)) && Leads(s, Finished(s)) && s.owed == |s.retired| <= s.nArmed
  {
    OwedCounted(s);
    hide Inv, Leads, Recycled;
    ScanMove(s, FinishWords);
    if s.retired != [] {
      var a := s.(scanner := Recycle);
      assert a == ScanApply(s, FinishWords) && Finished(a) == Finished(s);
      hide ScanApply, Finished;
      RecycleRun(a);
      Chain(s, a, Finished(a));
    }
  }

  lemma RecycleRun(a: State)
    requires Inv(a) && a.scanner.Recycle? && a.retired != []
    ensures Inv(Finished(a)) && Leads(a, Finished(a))
  {
    hide Inv, Leads, Recycled;
    ScanMove(a, Append);
    var b := a.(scanner := Subtract, free := a.free + a.retired, retired := [], place := Recycled(a.place, a.retired));
    ScanMove(b, FetchSub);
    Chain(a, b, b.(scanner := Waking, nArmed := b.nArmed - b.owed, owed := 0));
  }

  lemma ActiveLoaded(s: State)
    requires Inv(s)
    ensures HasPayloads(s)
  {
    forall x | x in s.active ensures x < s.N() && s.payload[x].Some? {
      SlotFact(s, x);
    }
  }

  /** The table as a pass starts. */
  function Begun(s: State, probing: bool): State {
    s.(scanner := Words(0), probing := probing, progress := false)
  }

  lemma BeginRun(s: State, probing: bool)
    requires Inv(s) && s.scanner.Top?
    ensures Inv(Begun(s, probing)) && Leads(s, Begun(s, probing))
  {
    hide Inv, Leads;
    ScanMove(s, StartScan(probing));
  }

  lemma BegunLoaded(s: State, probing: bool)
    requires HasPayloads(s)
    ensures HasPayloads(Begun(s, probing))
  {
  }

  /** Signalling everything woken, then waking everything dead, ends the pass. */
  lemma {:induction false} DispatchRun(s: State)
    requires Inv(s) && s.scanner.Waking? && s.signalled <= |s.woken| && s.faulted <= |s.dead|
    ensures var t := s.(signalled := |s.woken|, faulted := |s.dead|,
                        scanner := if s.probing || s.progress then Top else Gate);
            Inv(t) && Leads(s, t)
    decreases |s.woken| - s.signalled + |s.dead| - s.faulted
  {
    hide Inv, Leads;
    if s.signalled < |s.woken| {
      var m := s.(signalled := s.signalled + 1);
      ScanMove(s, Signal);
      DispatchRun(m);
      Chain(s, m, s.(signalled := |s.woken|, faulted := |s.dead|, scanner := if s.probing || s.progress then Top else Gate));
    } else if s.faulted < |s.dead| {
      var m := s.(faulted := s.faulted + 1);
      ScanMove(s, WakeFaulted);
      DispatchRun(m);
      Chain(s, m, s.(signalled := |s.woken|, faulted := |s.dead|, scanner := if s.probing || s.progress then Top else Gate));
    } else {
      ScanMove(s, EndPass);
    }
  }
}
