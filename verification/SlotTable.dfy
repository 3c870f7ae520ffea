/**
 * The slot table as the source keeps it: a bitmap in 64-bit words, payload cells, device flags, a free list and a
 * counter. Each method is the code of one operation with nothing interleaved; the ghost field `proto` follows it
 * through the slot protocol, so every method is also a run of that protocol.
 */
module SlotTable {
  import opened Prelude
  import opened Words
  import opened P = SlotProtocol
  import opened SlotScan

  class Table {
    const numSlots: nat
    const flags: array<int>
    const active: array<int>
    const payload: array<Option<Rid>>
    var free: seq<nat>
    var nArmed: int
    ghost var proto: State

    /** The fields agree with the protocol state. */
    ghost predicate Tied()
      reads this, flags, active, payload
    {
      && flags.Length == numSlots && payload.Length == numSlots && active.Length == (numSlots + 63) / 64
      && flags != active
      && IsBitmap(active[..])
      && |proto.flag| == numSlots && (forall x :: 0 <= x < numSlots ==> (proto.flag[x] <==> flags[x] == 1))
      && proto.payload == payload[..] && proto.free == free && proto.nArmed == nArmed
      && proto.active == Members(active[..])
    }

    ghost predicate Valid()
      reads this, flags, active, payload
    {
      Tied() && Inv(proto)
    }

    constructor (numSlots: nat)
      ensures Valid() && this.numSlots == numSlots && proto == Init(numSlots)
      ensures fresh(flags) && fresh(active) && fresh(payload)
    {
      this.numSlots := numSlots;
      flags := new int[numSlots](i => 0);
      active := new int[(numSlots + 63) / 64](i => 0);
      payload := new Option<Rid>[numSlots](i => None);
      free := seq(numSlots, i requires 0 <= i < numSlots => numSlots - 1 - i);
      nArmed := 0;
      proto := Init(numSlots);
      new;
      InitInv(numSlots);
      forall x: nat | x < 64 * active.Length ensures !Marked(active[..], x) {
        ZeroBit(x % 64);
      }
      assert Members(active[..]) == {};
    }

    /** Takes an idle slot for registration `r`, if there is one. */
    method Claim(ghost r: Rid) returns (slot: Option<nat>)
      requires Valid() && r !in proto.regs
      modifies this`free, this`proto
      ensures Valid()
      ensures slot.None? <==> old(free) == []
      ensures slot.None? ==> free == old(free) && proto == old(proto)
      ensures slot.Some? ==>
                && old(free) == free + [slot.value] && Leads(old(proto), proto)
                && proto == old(proto).(free := free, regs := old(proto).regs[r := Holding(slot.value)], place := proto.place)
    {
      if |free| == 0 {
        return None;
      }
      slot := Some(free[|free| - 1]);
      free := free[..|free| - 1];
      assert slot.value in proto.free;
      Move(proto, P.Claim(r));
      proto := Apply(proto, P.Claim(r));
    }

    /** Gives back a slot whose flag write the driver refused. */
    method Release(ghost r: Rid, slot: nat)
      requires Valid() && r in proto.regs && proto.regs[r] == Rejected(slot)
      modifies this`free, this`proto
      ensures Valid() && Leads(old(proto), proto) && free == old(free) + [slot]
      ensures proto == old(proto).(free := free, regs := old(proto).regs[r := Released], place := proto.place)
    {
      RegFact(proto, r);
      Move(proto, P.Release(r));
      free := free + [slot];
      proto := Apply(proto, P.Release(r));
    }

    method ResetFlag(ghost r: Rid, slot: nat)
      requires Valid() && r in proto.regs && proto.regs[r] == Holding(slot)
      modifies this`proto, flags
      ensures Valid() && Leads(old(proto), proto) && slot < numSlots && flags[slot] == 0
      ensures forall x :: 0 <= x < flags.Length && x != slot ==> flags[x] == old(flags[x])
      ensures |proto.flag| == |old(proto).flag|
      ensures proto == old(proto).(flag := old(proto).flag[slot := false], regs := old(proto).regs[r := Cleared(slot)])
    {
      RegFact(proto, r);
      Move(proto, P.ResetFlag(r));
      flags[slot] := 0;
      proto := Apply(proto, P.ResetFlag(r));
    }

    /** First step of `publish`. */
    method StoreCell(r: Rid, slot: nat)
      requires Valid() && r in proto.regs && proto.regs[r] == Enqueued(slot)
      modifies this`proto, payload
      ensures Valid() && Leads(old(proto), proto) && slot < numSlots && Shape(old(proto)) && slot !in proto.active
      ensures proto == old(proto).(payload := old(proto).payload[slot := Some(r)], regs := old(proto).regs[r := Loaded(slot)])
    {
      hide Inv, Leads, Members;
      StoreRun(proto, r);
      payload[slot] := Some(r);
      proto := proto.(payload := proto.payload[slot := Some(r)], regs := proto.regs[r := Loaded(slot)]);
    }

    /** Second step: count the slot before its bit can be seen. */
    method Count(ghost r: Rid) returns (wasIdle: bool)
      requires Valid() && r in proto.regs && proto.regs[r].Loaded?
      modifies this`proto, this`nArmed
      ensures Valid() && Leads(old(proto), proto) && (wasIdle <==> old(nArmed) == 0)
      ensures proto == old(proto).(nArmed := old(nArmed) + 1,
                                   regs := old(proto).regs[r := Counted(old(proto).regs[r].slot, wasIdle)])
    {
      hide Inv, Leads, Members;
      CountRun(proto, r);
      wasIdle := nArmed == 0;
      nArmed := nArmed + 1;
      proto := proto.(nArmed := nArmed, regs := proto.regs[r := Counted(proto.regs[r].slot, wasIdle)]);
    }

    /** Third step: the bit, which hands the slot to the scanner. */
    method SetActive(ghost r: Rid, slot: nat)
      requires Valid() && r in proto.regs && proto.regs[r].Counted? && proto.regs[r].slot == slot && slot < numSlots
      modifies this`proto, active
      ensures Valid() && Leads(old(proto), proto)
      ensures proto == old(proto).(active := old(proto).active + {slot}, place := proto.place,
                                   regs := old(proto).regs[r := if old(proto).regs[r].wasIdle then Owing else Published])
    {
      hide Inv, Leads, Members, IsBitmap;
      ghost var before := active[..];
      ShapeOf(proto);
      SetRun(proto, r);
      AddMember(before, slot / 64, slot % 64);
      active[slot / 64] := WithBit(active[slot / 64], slot % 64);
      assert active[..] == before[slot / 64 := WithBit(before[slot / 64], slot % 64)];
      proto := proto.(active := proto.active + {slot}, place := proto.place[slot := Armed(r)],
                      regs := proto.regs[r := if proto.regs[r].wasIdle then Owing else Published]);
    }

    /** Hands an armed slot to the scanner; true on the idle-to-active transition. */
    method Publish(r: Rid, slot: nat) returns (wasIdle: bool)
      requires Valid() && r in proto.regs && proto.regs[r] == Enqueued(slot)
      modifies this`proto, this`nArmed, payload, active
      ensures Valid() && Leads(old(proto), proto)
      ensures wasIdle <==> old(nArmed) == 0
      ensures slot < numSlots && Shape(old(proto)) && slot !in old(proto.active)
      ensures proto == old(proto).(payload := old(proto).payload[slot := Some(r)], nArmed := old(nArmed) + 1,
                                   active := old(proto).active + {slot}, place := proto.place,
                                   regs := old(proto).regs[r := if wasIdle then Owing else Published])
    {
      hide Inv, Leads, Tied;
      StoreCell(r, slot);
      ghost var s1 := proto;
      wasIdle := Count(r);
      ghost var s2 := proto;
      Chain(old(proto), s1, s2);
      SetActive(r, slot);
      Chain(old(proto), s2, proto);
      assert proto.regs == old(proto).regs[r := if wasIdle then Owing else Published];
    }

    /** Registers a completion slot for work already on a stream; `driverTakes` is the driver's answer to the flag write. */
    method Register(r: Rid, driverTakes: bool) returns (result: Result<bool, RegisterError>)
      requires Valid() && r !in proto.regs
      modifies this, flags, active, payload
      ensures Valid() && Leads(old(proto), proto)
      ensures result == if old(free) == [] then Err(Exhausted)
                        else if !driverTakes then Err(WriteRefused) else Ok(old(nArmed) == 0)
      ensures proto.token == ((result.Ok? && result.value) || old(proto).token)
      ensures result.Err? ==> free == old(free) && nArmed == old(nArmed) && proto.active == old(proto.active)
                              && payload[..] == old(payload[..]) && proto.writes == old(proto.writes)
      ensures forall x :: 0 <= x < flags.Length && flags[x] != old(flags[x]) ==>
                flags[x] == 0 && result != Err(Exhausted) && x == old(free)[|old(free)| - 1]
      ensures result.Ok? ==>
                && r in proto.regs && proto.regs[r] == Published && nArmed == old(nArmed) + 1
                && old(free) != [] && free == old(free)[..|old(free)| - 1]
                && proto.writes == old(proto.writes)[r := Write(old(free)[|old(free)| - 1], Queued)]
                && proto.active == old(proto.active) + {old(free)[|old(free)| - 1]}
    {
      hide Inv, Leads, Tied, Members, IsBitmap;
      var slot := Reserve(r);
      if slot.None? {
        return Err(Exhausted);
      }
      ghost var s := proto;
      EnqueueWrite(r, slot.value, driverTakes);
      Chain(old(proto), s, proto);
      s := proto;
      if !driverTakes {
        Release(r, slot.value);
        Chain(old(proto), s, proto);
        return Err(WriteRefused);
      }
      var wasIdle := PublishAndUnpark(r, slot.value);
      Chain(old(proto), s, proto);
      result := Ok(wasIdle);
    }

    /** Claims a slot and clears its flag. */
    method Reserve(ghost r: Rid) returns (slot: Option<nat>)
      requires Valid() && r !in proto.regs
      modifies this`free, this`proto, flags
      ensures Valid() && Leads(old(proto), proto)
      ensures flags != active && (slot.None? <==> old(free) == [])
      ensures slot.None? ==>
                free == old(free) && proto == old(proto) && forall x :: 0 <= x < flags.Length ==> flags[x] == old(flags[x])
      ensures slot.Some? ==>
                && old(free) == free + [slot.value] && slot.value < numSlots && |old(proto).flag| == numSlots
                && proto == old(proto).(free := free, flag := old(proto).flag[slot.value := false],
                                        regs := old(proto).regs[r := Cleared(slot.value)], place := proto.place)
                && flags[slot.value] == 0 && forall x :: 0 <= x < flags.Length && x != slot.value ==> flags[x] == old(flags[x])
    {
      hide Inv, Leads, Members, IsBitmap;
      Stay(proto);
      slot := Claim(r);
      if slot.Some? {
        ghost var s := proto;
        ResetFlag(r, slot.value);
        Chain(old(proto), s, proto);
        assert proto.regs == old(proto).regs[r := Cleared(slot.value)];
      }
    }

    /** Puts the device's flag write on the stream, if the driver takes it. */
    ghost method EnqueueWrite(r: Rid, slot: nat, taken: bool)
      requires Valid() && r in proto.regs && proto.regs[r] == Cleared(slot)
      modifies this`proto
      ensures Valid() && Leads(old(proto), proto)
      ensures proto == if taken
                       then old(proto).(writes := old(proto).writes[r := Write(slot, Queued)],
                                        regs := old(proto).regs[r := Enqueued(slot)])
                       else old(proto).(regs := old(proto).regs[r := Rejected(slot)])
    {
      hide Inv, Leads, Members, IsBitmap;
      WriteRun(proto, r);
      proto := if taken
               then proto.(writes := proto.writes[r := Write(slot, Queued)], regs := proto.regs[r := Enqueued(slot)])
               else proto.(regs := proto.regs[r := Rejected(slot)]);
    }

    /** Publishes, and unparks the scanner on the idle-to-active transition only. */
    method PublishAndUnpark(r: Rid, slot: nat) returns (wasIdle: bool)
      requires Valid() && r in proto.regs && proto.regs[r] == Enqueued(slot)
      modifies this`proto, this`nArmed, payload, active
      ensures Valid() && Leads(old(proto), proto)
      ensures wasIdle <==> old(nArmed) == 0
      ensures r in proto.regs && proto.regs[r] == Published && proto.token == (wasIdle || old(proto).token)
      ensures nArmed == old(nArmed) + 1 && free == old(free) && proto.writes == old(proto.writes)
      ensures proto.active == old(proto.active) + {slot}
    {
      hide Inv, Leads, Members, IsBitmap;
      wasIdle := Publish(r, slot);
      if wasIdle {
        ghost var s := proto;
        UnparkRun(s, r);
        proto := s.(token := true, regs := s.regs[r := Published]);
        Chain(old(proto), s, proto);
      }
    }

    /** The park gate: nothing is armed, about to be armed, or retired and not yet subtracted. */
    method IsIdle() returns (idle: bool)
      requires Valid()
      ensures idle <==> proto.active == {} && InFlight(proto) == {} && proto.owed == 0
    {
      IdleMeans(proto);
      idle := nArmed == 0;
    }

    // -------------------------------------------------------------- scanning

    /** The scan that began at `start` with table `b` has looked at every slot below `lim` and stands at `c`. */
    ghost predicate Follows(start: State, b: State, lim: nat, isDead: Rid -> bool, c: Scanner,
                            retired: seq<nat>, woken: seq<Rid>, dead: seq<Rid>)
      reads this, flags, active, payload
    {
      && Tied() && HasPayloads(b) && b.N() == numSlots && lim <= numSlots
      && proto == ScanAt(b, lim, isDead, c) && Inv(proto) && Leads(start, proto)
      && proto.retired == retired && proto.woken == b.woken + woken && proto.dead == b.dead + dead
    }

    /** Retires slot `64 * w + bit`: clears its bit and takes its payload. */
    method Retire(w: nat, bit: nat, landed: bool, woken: seq<Rid>, dead: seq<Rid>) returns (woken': seq<Rid>, dead': seq<Rid>)
      requires Tied() && w < active.Length && bit < 64 && 64 * w + bit < numSlots && Shape(proto)
      requires payload[64 * w + bit].Some? && landed == proto.flag[64 * w + bit]
      modifies this`proto, active, payload
      ensures Tied() && proto == RetireSlot(old(proto), 64 * w + bit)
      ensures var p := old(payload[64 * w + bit].value);
              woken' == (if landed then woken + [p] else woken) && dead' == (if landed then dead else dead + [p])
    {
      hide P.Retire, Members;
      var slot := 64 * w + bit;
      ghost var before, cells := active[..], payload[..];
      DropMember(before, w, bit);
      RetireFields(proto, slot);
      active[w] := WithoutBit(active[w], bit);
      assert active[..] == before[w := WithoutBit(before[w], bit)];
      var taken := payload[slot];
      payload[slot] := None;
      assert payload[..] == cells[slot := None];
      proto := RetireSlot(proto, slot);
      woken', dead' := woken, dead;
      if taken.Some? {
        if landed {
          woken' := woken + [taken.value];
        } else {
          dead' := dead + [taken.value];
        }
      }
    }

    /** One turn of the inner loop, at slot `64 * w + bit`. */
    method ScanSlot(w: nat, bit: nat, probing: bool, isDead: Rid -> bool, retired0: seq<nat>, woken0: seq<Rid>,
                    dead0: seq<Rid>, ghost start: State, ghost b: State, ghost lim: nat, ghost bits: set<nat>)
      returns (retired: seq<nat>, woken: seq<Rid>, dead: seq<Rid>)
      requires w < active.Length && bit < 64 && b.probing == probing && Condemns(b, isDead)
      requires Follows(start, b, lim, isDead, P.Bits(w, bits), retired0, woken0, dead0)
      requires var x := 64 * w + bit;
               x in bits && lim <= x < numSlots && x in b.active && forall y :: lim <= y < x ==> y !in b.active
      modifies this`proto, active, payload
      ensures var x := 64 * w + bit;
              Follows(start, b, x + 1, isDead, P.Bits(w, bits - {x}), retired, woken, dead)
    {
      hide Inv, Leads, RetireSlot, Scanned, Members, IsBitmap, Condemns;
      var slot := 64 * w + bit;
      ScanBit(b, lim, w, bits, slot, isDead);
      Chain(start, proto, ScanAt(b, slot + 1, isDead, P.Bits(w, bits - {slot})));
      retired, woken, dead := retired0, woken0, dead0;
      var landed := flags[slot] == 1;
      var gone := !landed && probing && payload[slot].Some? && isDead(payload[slot].value);
      FlagsKept(b, lim, isDead);
      if landed || gone {
        RetireFields(proto, slot);
        woken, dead := Retire(w, bit, landed, woken, dead);
        retired := retired + [slot];
      }
      proto := proto.(scanner := P.Bits(w, bits - {slot}));
    }

    /** Loading word `w` takes the snapshot the inner loop walks. */
    ghost method EnterWord(w: nat, isDead: Rid -> bool, retired: seq<nat>, woken: seq<Rid>, dead: seq<Rid>,
                           start: State, b: State)
      requires w < active.Length && Follows(start, b, Least(64 * w, numSlots), isDead, P.Words(w), retired, woken, dead)
      modifies this`proto
      ensures var lim, bits := Least(64 * w, numSlots), WordMembers(active[w], w);
              && Follows(start, b, lim, isDead, P.Bits(w, bits), retired, woken, dead)
              && Word(active[w]) && active[w] >= 0 && (forall y :: y in bits ==> lim <= y)
              && (forall y :: lim <= y < Least(64 * w + 64, numSlots) && y in b.active ==> y in bits)
              && (active[w] != 0 <==> exists x :: x in b.active && 64 * w <= x < 64 * w + 64)
    {
      hide Inv, Leads, Scanned, Members, WordMembers, IsBitmap;
      SnapshotWord(b, w, isDead, active[..], start);
      proto := ScanAt(b, Least(64 * w, numSlots), isDead, P.Bits(w, WordMembers(active[w], w)));
    }

    ghost method LeaveWord(w: nat, lim: nat, isDead: Rid -> bool, retired: seq<nat>, woken: seq<Rid>, dead: seq<Rid>,
                           start: State, b: State)
      requires Follows(start, b, lim, isDead, P.Bits(w, {}), retired, woken, dead)
      requires var hi := Least(64 * w + 64, numSlots); lim <= hi && forall y :: lim <= y < hi ==> y !in b.active
      modifies this`proto
      ensures Follows(start, b, Least(64 * w + 64, numSlots), isDead, P.Words(w + 1), retired, woken, dead)
    {
      hide Inv, Leads, Scanned, Members, IsBitmap;
      var hi := Least(64 * w + 64, numSlots);
      ScanNext(b, lim, hi, w, isDead);
      Chain(start, proto, ScanAt(b, hi, isDead, P.Words(w + 1)));
      proto := proto.(scanner := P.Words(w + 1));
    }

    lemma InSnapshot(w: nat, lim: nat, bits: set<nat>, x: nat, isDead: Rid -> bool, retired: seq<nat>, woken: seq<Rid>,
                     dead: seq<Rid>, start: State, b: State)
      requires Follows(start, b, lim, isDead, P.Bits(w, bits), retired, woken, dead) && x in bits && lim <= x
      ensures x < numSlots && x in b.active
    {
      hide Inv;
      SnapshotSlot(b, lim, w, bits, isDead, x);
    }

    /** The inner loop: every bit of word `w`, lowest first. */
    method ScanBits(w: nat, probing: bool, isDead: Rid -> bool, retired0: seq<nat>, woken0: seq<Rid>, dead0: seq<Rid>,
                    ghost start: State, ghost b: State)
      returns (any: bool, retired: seq<nat>, woken: seq<Rid>, dead: seq<Rid>)
      requires w < active.Length && b.probing == probing && Condemns(b, isDead)
      requires Follows(start, b, Least(64 * w, numSlots), isDead, P.Words(w), retired0, woken0, dead0)
      modifies this`proto, active, payload
      ensures Follows(start, b, Least(64 * w + 64, numSlots), isDead, P.Words(w + 1), retired, woken, dead)
      ensures any <==> exists x :: x in b.active && 64 * w <= x < 64 * w + 64
    {
      hide Follows, WordMembers, Word, Condemns;
      retired, woken, dead := retired0, woken0, dead0;
      var bits := active[w];
      ghost var lim: nat, hi := Least(64 * w, numSlots), Least(64 * w + 64, numSlots);
      EnterWord(w, isDead, retired, woken, dead, start, b);
      any := bits != 0;
      while bits != 0
        invariant Follows(start, b, lim, isDead, P.Bits(w, WordMembers(bits, w)), retired, woken, dead)
        invariant Word(bits) && lim <= hi && bits >= 0
        invariant forall y :: y in WordMembers(bits, w) ==> y >= lim
        invariant forall y :: lim <= y < hi && y in b.active ==> y in WordMembers(bits, w)
        decreases bits
      {
        ghost var members := WordMembers(bits, w);
        LeastMember(bits, w);
        var bit := TrailingZeros(bits);
        bits := WithoutLowest(bits);
        var slot := w * 64 + bit;
        InSnapshot(w, lim, members, slot, isDead, retired, woken, dead, start, b);
        if slot >= numSlots {
          break;
        }
        retired, woken, dead := ScanSlot(w, bit, probing, isDead, retired, woken, dead, start, b, lim, members);
        lim := slot + 1;
      }
      NoMembers(w);
      LeaveWord(w, lim, isDead, retired, woken, dead, start, b);
    }

    ghost method BeginPass(probing: bool, isDead: Rid -> bool)
      requires Valid() && proto.scanner.Top? && Condemns(proto, isDead)
      modifies this`proto
      ensures proto == Begun(old(proto), probing) && Condemns(proto, isDead)
      ensures Follows(old(proto), proto, Least(0, numSlots), isDead, P.Words(0), [], [], [])
    {
      BeginRun(proto, probing);
      ActiveLoaded(proto);
      hide Inv, Leads, Members, IsBitmap, HasPayloads;
      proto := Begun(proto, probing);
      BegunLoaded(old(proto), probing);
      assert proto.woken == proto.woken + [] && proto.dead == proto.dead + [];
    }

    /** What holds once every word has been walked. */
    lemma PassFacts(
      probing: bool, isDead: Rid -> bool, retired: seq<nat>, woken: seq<Rid>, dead: seq<Rid>, start: State, b: State)
      requires b == Begun(start, probing)
      requires Follows(start, b, numSlots, isDead, P.Words(active.Length), retired, woken, dead)
      requires b.retired == [] && b.owed == 0
      ensures Inv(Finished(proto)) && Leads(start, Finished(proto)) && proto.owed == |retired| <= nArmed
      ensures HasPayloads(b) && b.N() == numSlots && Shape(proto) && proto.N() == numSlots
      ensures retired == Retirees(b, numSlots, isDead)
      ensures woken == Payloads(b, numSlots, isDead, true) && dead == Payloads(b, numSlots, isDead, false)
      ensures proto.active == set x | x in b.active && x !in retired
      ensures forall x :: 0 <= x < numSlots ==> proto.payload[x] == if x in retired then None else b.payload[x]
      ensures HasPayloads(start) && Took(start, probing, isDead, retired, woken, dead)
    {
      hide Inv, Leads, Members, IsBitmap, Finished, Scanned, Retirees, Payloads, Took;
      PassTakes(start, probing, isDead);
      FinishRun(proto);
      Chain(start, proto, Finished(proto));
      PassIs(b, isDead);
      assert proto.woken[|b.woken|..] == woken && proto.dead[|b.dead|..] == dead;
    }

    /** One scan pass, with a probe for dead streams when `probing`. */
    method ScanInner(probing: bool, isDead: Rid -> bool) returns (anyActive: bool, woken: seq<Rid>, dead: seq<Rid>)
      requires Valid() && proto.scanner.Top? && Condemns(proto, isDead)
      modifies this, active, payload
      ensures Valid() && Leads(old(proto), proto) && proto.scanner.Waking?
      ensures anyActive <==> old(proto.active) != {}
      ensures var s := Begun(old(proto), probing);
              var gone := Retirees(s, numSlots, isDead);
              && free == old(free) + gone && nArmed == old(nArmed) - |gone| >= 0
              && woken == Payloads(s, numSlots, isDead, true) && dead == Payloads(s, numSlots, isDead, false)
              && proto.woken == old(proto.woken) + woken && proto.dead == old(proto.dead) + dead
              && proto.active == (set x | x in old(proto.active) && x !in gone)
              && forall x :: 0 <= x < numSlots ==> payload[x] == if x in gone then None else old(payload[x])
      ensures HasPayloads(old(proto)) && Took(old(proto), probing, isDead, free[|old(free)|..], woken, dead)
    {
      hide Inv, Leads, Condemns, Members, IsBitmap, Scanned, Retirees, Payloads, Recycled, Took;
      TopHasNothing(proto);
      BeginPass(probing, isDead);
      ghost var start, b := old(proto), proto;
      anyActive := false;
      var retired: seq<nat>;
      retired, woken, dead := [], [], [];
      for w := 0 to active.Length
        invariant Follows(start, b, Least(64 * w, numSlots), isDead, P.Words(w), retired, woken, dead)
        invariant anyActive <==> exists x :: x in b.active && 0 <= x < 64 * w
        invariant free == old(free) && nArmed == old(nArmed)
      {
        var any;
        any, retired, woken, dead := ScanBits(w, probing, isDead, retired, woken, dead, start, b);
        anyActive := anyActive || any;
      }
      PassFacts(probing, isDead, retired, woken, dead, start, b);
      hide HasPayloads;
      EndPass(retired);
      assert free[|old(free)|..] == retired;
    }

    /** After the last word: recycle what was retired, then subtract it from the counter. */
    method EndPass(retired: seq<nat>)
      requires Valid() && proto.scanner == P.Words(active.Length) && proto.retired == retired && proto.owed == |retired|
      modifies this`free, this`nArmed, this`proto
      ensures Valid() && proto == Finished(old(proto))
      ensures free == old(free) + retired && nArmed == old(nArmed) - |retired|
    {
      hide Inv, Leads, Members, IsBitmap, Recycled;
      WordsDone(proto);
      proto := proto.(scanner := if retired == [] then Waking else P.Recycle);
      if |retired| > 0 {
        Recycle(retired);
        Subtract(|retired|);
      } else {
        assert free == free + retired;
      }
    }

    method Recycle(retired: seq<nat>)
      requires Valid() && proto.scanner.Recycle? && proto.retired == retired
      modifies this`free, this`proto
      ensures Valid() && free == old(free) + retired
      ensures proto == old(proto).(scanner := P.Subtract, free := free, retired := [],
                                   place := Recycled(old(proto).place, retired))
    {
      hide Inv, Members, IsBitmap, Recycled;
      ScanMove(proto, Append);
      free := free + retired;
      proto := ScanApply(proto, Append);
    }

    /** The counter covers what is subtracted. */
    method Subtract(n: nat)
      requires Valid() && proto.scanner.Subtract? && proto.owed == n
      modifies this`nArmed, this`proto
      ensures Valid() && n <= old(nArmed) && nArmed == old(nArmed) - n
      ensures proto == old(proto).(scanner := Waking, nArmed := nArmed, owed := 0)
    {
      hide Inv, Members, IsBitmap;
      OwedCounted(proto);
      ScanMove(proto, FetchSub);
      nArmed := nArmed - n;
      proto := ScanApply(proto, FetchSub);
    }
  }

  datatype RegisterError = Exhausted | WriteRefused

  /** Either answer of the driver to the flag write. */
  lemma WriteRun(s: State, r: Rid)
    requires Inv(s) && r in s.regs && s.regs[r].Cleared?
    ensures var x := s.regs[r].slot;
            var no, yes := s.(regs := s.regs[r := Rejected(x)]),
                           s.(writes := s.writes[r := Write(x, Queued)], regs := s.regs[r := Enqueued(x)]);
            Inv(no) && Leads(s, no) && Inv(yes) && Leads(s, yes)
  {
    hide Inv, Leads;
    Move(s, Enqueue(r));
    Move(s, EnqueueFails(r));
  }

  lemma UnparkRun(s: State, r: Rid)
    requires Inv(s) && r in s.regs && s.regs[r].Owing?
    ensures var t := s.(token := true, regs := s.regs[r := Published]);
            Inv(t) && Leads(s, t)
  {
    hide Inv, Leads;
    Move(s, Unpark(r));
  }

  lemma PublishFacts(s: State, r: Rid)
    requires Inv(s) && r in s.regs && s.regs[r].Enqueued?
    ensures Shape(s) && s.regs[r].slot < s.N() && s.regs[r].slot !in s.active
  {
    RegFact(s, r);
    SlotFact(s, s.regs[r].slot);
  }

  lemma StoreRun(s: State, r: Rid)
    requires Inv(s) && r in s.regs && s.regs[r].Enqueued?
    ensures Shape(s) && s.regs[r].slot < s.N() && s.regs[r].slot !in s.active
    ensures var x := s.regs[r].slot;
            var a := s.(payload := s.payload[x := Some(r)], regs := s.regs[r := Loaded(x)]);
            Inv(a) && Leads(s, a)
  {
    hide Inv, Leads;
    PublishFacts(s, r);
    Move(s, StorePayload(r));
  }

  lemma CountRun(a: State, r: Rid)
    requires Inv(a) && r in a.regs && a.regs[r].Loaded?
    ensures var b := a.(nArmed := a.nArmed + 1, regs := a.regs[r := Counted(a.regs[r].slot, a.nArmed == 0)]);
            Inv(b) && Leads(a, b)
  {
    hide Inv, Leads;
    Move(a, Increment(r));
  }

  lemma SetRun(b: State, r: Rid)
    requires Inv(b) && r in b.regs && b.regs[r].Counted? && b.regs[r].slot < |b.place|
    ensures var x := b.regs[r].slot;
            var t := b.(active := b.active + {x}, place := b.place[x := Armed(r)],
                        regs := b.regs[r := if b.regs[r].wasIdle then Owing else Published]);
            Inv(t) && Leads(b, t)
  {
    hide Inv, Leads;
    Move(b, SetBit(r));
  }

  lemma SnapshotWord(b: State, w: nat, isDead: Rid -> bool, words: seq<int>, start: State)
    requires HasPayloads(b) && w < |words| == b.NumWords() && IsBitmap(words)
    requires var cur := ScanAt(b, Least(64 * w, b.N()), isDead, P.Words(w));
             cur.active == Members(words) && Inv(cur) && Leads(start, cur)
    ensures var lim := Least(64 * w, b.N());
            var next := ScanAt(b, lim, isDead, P.Bits(w, WordMembers(words[w], w)));
            && Inv(next) && Leads(start, next) && Word(words[w])
            && (forall y :: y in WordMembers(words[w], w) ==> lim <= y)
            && (forall y :: lim <= y < Least(64 * w + 64, b.N()) && y in b.active ==> y in WordMembers(words[w], w))
            && (words[w] != 0 <==> exists x :: x in b.active && 64 * w <= x < 64 * w + 64)
  {
    var lim := Least(64 * w, b.N());
    var cur := ScanAt(b, lim, isDead, P.Words(w));
    WordMembersOf(words, w);
    assert WordBits(cur, w) == WordMembers(words[w], w);
    ScanWord(b, lim, w, isDead);
    hide Inv, Leads;
    Chain(start, cur, ScanAt(b, lim, isDead, P.Bits(w, WordMembers(words[w], w))));
    if words[w] == 0 {
      NoMembers(w);
    } else {
      LeastMember(words[w], w);
    }
  }

  lemma SnapshotSlot(b: State, lim: nat, w: nat, bits: set<nat>, isDead: Rid -> bool, x: nat)
    requires HasPayloads(b) && lim <= b.N() && x in bits && lim <= x && Inv(ScanAt(b, lim, isDead, P.Bits(w, bits)))
    ensures x < b.N() && x in b.active
  {
    ScannedFrame(b, lim, isDead);
    var s := ScanAt(b, lim, isDead, P.Bits(w, bits));
    assert x in s.active && x < s.N();
  }

  lemma FlagsKept(b: State, lim: nat, isDead: Rid -> bool)
    requires HasPayloads(b) && lim <= b.N()
    ensures Scanned(b, lim, isDead).flag == b.flag && Scanned(b, lim, isDead).probing == b.probing
  {
  }

  /** The counter is zero exactly when nothing is armed, in flight or owed. */
  lemma IdleMeans(s: State)
    requires Inv(s)
    ensures s.nArmed == 0 <==> s.active == {} && InFlight(s) == {} && s.owed == 0
  {
  }

  lemma ShapeOf(s: State)
    requires Inv(s)
    ensures Shape(s)
  {
  }

  lemma WordsDone(s: State)
    requires Inv(s) && s.scanner.Words? && s.scanner.word >= s.NumWords()
    ensures Inv(s.(scanner := if s.retired == [] then Waking else P.Recycle))
  {
    hide Inv;
    ScanMove(s, FinishWords);
  }

  lemma TopHasNothing(s: State)
    requires Inv(s) && s.scanner.Top?
    ensures s.retired == [] && s.owed == 0
  {
  }
}
