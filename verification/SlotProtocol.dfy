/**
 * The completion-slot protocol as a state machine: any number of registrants,
 * one scanner thread, and a device that writes completion flags whenever it
 * likes. One action is one atomic operation of the source under sequential
 * consistency; purely thread-local work is folded into the preceding action.
 */
module SlotProtocol {
  import opened Prelude

  /** A registration. Its number also stands for the payload it publishes. */
  type Rid = nat

  /** Where a registration is in `register` / `publish`. */
  datatype Pc =
    | Holding(slot: nat)                  // claimed
    | Cleared(slot: nat)                  // flag reset to 0
    | Rejected(slot: nat)                 // the driver refused the flag write
    | Enqueued(slot: nat)                 // flag write is on the stream
    | Loaded(slot: nat)                   // payload cell written
    | Counted(slot: nat, wasIdle: bool)   // n_armed incremented
    | Owing                               // bit set, saw 0 -> 1, must unpark
    | Published                           // register returned Ok
    | Released                            // register returned Err, slot given back
  {
    predicate Holds() {
      Holding? || Cleared? || Rejected? || Enqueued? || Loaded? || Counted?
    }
  }

  datatype Status = Queued | Landed | Doomed

  /** A flag write on its stream: queued, executed, or lost to a context fault. */
  datatype Write = Write(slot: nat, status: Status)

  /** The scanner thread's program counter with its per-word locals. */
  datatype Scanner =
    | Top
    | Words(word: nat)
    | Bits(word: nat, bits: set<nat>)
    | AtSlot(word: nat, bits: set<nat>, slot: nat)
    | Probe(word: nat, bits: set<nat>, slot: nat)
    | Clear(word: nat, bits: set<nat>, slot: nat, landed: bool)
    | Taking(word: nat, bits: set<nat>, slot: nat, landed: bool)
    | Recycle
    | Subtract
    | Waking
    | Gate
    | Committed
  {
    predicate HasBits() { Bits? || AtSlot? || Probe? || Clear? || Taking? }
    /** The slot under examination is still armed. */
    predicate Examining() { AtSlot? || Probe? || Clear? }
    predicate InPass() { Words? || HasBits() || Recycle? }
  }

  /** Who owns a slot. A history variable: the source keeps no such table. */
  datatype Place = Free | Claimed(r: Rid) | Armed(r: Rid) | Retired(r: Rid)

  datatype State = State(
    flag: seq<bool>,
    active: set<nat>,
    payload: seq<Option<Rid>>,
    free: seq<nat>,
    nArmed: int,
    regs: map<Rid, Pc>,
    writes: map<Rid, Write>,
    token: bool,
    scanner: Scanner,
    probing: bool,
    progress: bool,
    retired: seq<nat>,
    owed: nat,
    woken: seq<Rid>,
    dead: seq<Rid>,
    signalled: nat,
    faulted: nat,
    place: seq<Place>)
  {
    function N(): nat { |flag| }
    function NumWords(): nat { (|flag| + 63) / 64 }
  }

  datatype Action =
    // registrant r
    | Claim(r: Rid) | ResetFlag(r: Rid) | Enqueue(r: Rid) | EnqueueFails(r: Rid) | Release(r: Rid)
    | StorePayload(r: Rid) | Increment(r: Rid) | SetBit(r: Rid) | Unpark(r: Rid)
    // device
    | Land(r: Rid) | Fault(r: Rid)
    // scanner
    | StartScan(p: bool) | LoadWord | NextWord | TakeBit(x: nat) | LoadFlag | Verdict(isDead: bool)
    | ClearBit | TakePayload | FinishWords | Append | FetchSub
    | Signal | WakeFaulted | EndPass | CheckIdle | Park | SpuriousWake

  function Init(n: nat): State {
    State(seq(n, i => false), {}, seq(n, i => None), seq(n, i requires 0 <= i < n => n - 1 - i), 0,
          map[], map[], false, Top, false, false, [], 0, [], [], 0, 0, seq(n, i => Free))
  }

  /** The slots of word `w` whose active bit is set: one atomic load. */
  function WordBits(s: State, w: nat): set<nat> {
    set x | x in s.active && x / 64 == w
  }

  predicate At(s: State, r: Rid) { r in s.regs }

  predicate RegEnabled(s: State, a: Action) {
    match a
    case Claim(r) => s.free != [] && r !in s.regs && s.free[|s.free| - 1] < |s.place|
    case ResetFlag(r) => At(s, r) && s.regs[r].Holding? && s.regs[r].slot < |s.flag|
    case Enqueue(r) => At(s, r) && s.regs[r].Cleared?
    case EnqueueFails(r) => At(s, r) && s.regs[r].Cleared?
    case Release(r) => At(s, r) && s.regs[r].Rejected? && s.regs[r].slot < |s.place|
    case StorePayload(r) => At(s, r) && s.regs[r].Enqueued? && s.regs[r].slot < |s.payload|
    case Increment(r) => At(s, r) && s.regs[r].Loaded?
    case SetBit(r) => At(s, r) && s.regs[r].Counted? && s.regs[r].slot < |s.place|
    case Unpark(r) => At(s, r) && s.regs[r].Owing?
    case _ => false
  }

  function RegApply(s: State, a: Action): State
    requires RegEnabled(s, a)
  {
    match a
    case Claim(r) =>
      var x := s.free[|s.free| - 1];
      s.(free := s.free[..|s.free| - 1], regs := s.regs[r := Holding(x)], place := s.place[x := Claimed(r)])
    case ResetFlag(r) =>
      var x := s.regs[r].slot;
      s.(flag := s.flag[x := false], regs := s.regs[r := Cleared(x)])
    case Enqueue(r) =>
      var x := s.regs[r].slot;
      s.(writes := s.writes[r := Write(x, Queued)], regs := s.regs[r := Enqueued(x)])
    case EnqueueFails(r) =>
      s.(regs := s.regs[r := Rejected(s.regs[r].slot)])
    case Release(r) =>
      var x := s.regs[r].slot;
      s.(free := s.free + [x], regs := s.regs[r := Released], place := s.place[x := Free])
    case StorePayload(r) =>
      var x := s.regs[r].slot;
      s.(payload := s.payload[x := Some(r)], regs := s.regs[r := Loaded(x)])
    case Increment(r) =>
      s.(nArmed := s.nArmed + 1, regs := s.regs[r := Counted(s.regs[r].slot, s.nArmed == 0)])
    case SetBit(r) =>
      var x := s.regs[r].slot;
      s.(active := s.active + {x}, place := s.place[x := Armed(r)],
         regs := s.regs[r := if s.regs[r].wasIdle then Owing else Published])
    case Unpark(r) =>
      s.(token := true, regs := s.regs[r := Published])
  }

  predicate DevEnabled(s: State, a: Action) {
    match a
    case Land(r) => r in s.writes && s.writes[r].status.Queued? && s.writes[r].slot < |s.flag|
    case Fault(r) => r in s.writes && s.writes[r].status.Queued?
    case _ => false
  }

  function DevApply(s: State, a: Action): State
    requires DevEnabled(s, a)
  {
    match a
    case Land(r) =>
      var x := s.writes[r].slot;
      s.(flag := s.flag[x := true], writes := s.writes[r := Write(x, Landed)])
    case Fault(r) =>
      s.(writes := s.writes[r := Write(s.writes[r].slot, Doomed)])
  }

  /**
   * The premise on the driver: a payload is judged dead only if its flag write
   * can no longer execute (it already has, or the context fault is sticky).
   */
  predicate MayDie(s: State, x: nat) {
    x < |s.payload| && s.payload[x].Some? && s.payload[x].value in s.writes
    && !s.writes[s.payload[x].value].status.Queued?
  }

  predicate ScanEnabled(s: State, a: Action) {
    match a
    case StartScan(_) => s.scanner.Top?
    case LoadWord => s.scanner.Words? && s.scanner.word < s.NumWords()
    case NextWord => s.scanner.Bits? && s.scanner.bits == {}
    case TakeBit(x) => s.scanner.Bits? && x in s.scanner.bits
    case LoadFlag => s.scanner.AtSlot? && s.scanner.slot < |s.flag|
    case Verdict(isDead) => s.scanner.Probe? && (isDead ==> MayDie(s, s.scanner.slot))
    case ClearBit => s.scanner.Clear? && s.scanner.slot < |s.place|
    case TakePayload => s.scanner.Taking? && s.scanner.slot < |s.payload|
    case FinishWords => s.scanner.Words? && s.scanner.word >= s.NumWords()
    case Append => s.scanner.Recycle?
    case FetchSub => s.scanner.Subtract?
    case Signal => s.scanner.Waking? && s.signalled < |s.woken|
    case WakeFaulted => s.scanner.Waking? && s.signalled >= |s.woken| && s.faulted < |s.dead|
    case EndPass => s.scanner.Waking? && s.signalled >= |s.woken| && s.faulted >= |s.dead|
    case CheckIdle => s.scanner.Gate?
    case Park => s.scanner.Committed? && s.token
    case SpuriousWake => s.scanner.Committed?
    case _ => false
  }

  function Retire(p: Place): Place {
    if p.Armed? then Retired(p.r) else p
  }

  function Recycled(place: seq<Place>, retired: seq<nat>): seq<Place> {
    seq(|place|, i requires 0 <= i < |place| => if i in retired then Free else place[i])
  }

  function ScanApply(s: State, a: Action): State
    requires ScanEnabled(s, a)
  {
    var c := s.scanner;
    match a
    case StartScan(p) => s.(scanner := Words(0), probing := p, progress := false)
    case LoadWord => s.(scanner := Bits(c.word, WordBits(s, c.word)))
    case NextWord => s.(scanner := Words(c.word + 1))
    case TakeBit(x) => s.(scanner := AtSlot(c.word, c.bits - {x}, x))
    case LoadFlag =>
      s.(scanner := if s.flag[c.slot] then Clear(c.word, c.bits, c.slot, true)
                    else if s.probing then Probe(c.word, c.bits, c.slot)
                    else Bits(c.word, c.bits))
    case Verdict(isDead) =>
      s.(scanner := if isDead then Clear(c.word, c.bits, c.slot, false) else Bits(c.word, c.bits))
    case ClearBit =>
      s.(scanner := Taking(c.word, c.bits, c.slot, c.landed), active := s.active - {c.slot},
         retired := s.retired + [c.slot], owed := s.owed + 1, place := s.place[c.slot := Retire(s.place[c.slot])])
    case TakePayload =>
      var t := s.(scanner := Bits(c.word, c.bits), payload := s.payload[c.slot := None]);
      if s.payload[c.slot].None? then t
      else if c.landed then t.(woken := s.woken + [s.payload[c.slot].value], progress := true)
      else t.(dead := s.dead + [s.payload[c.slot].value])
    case FinishWords => s.(scanner := if s.retired == [] then Waking else Recycle)
    case Append =>
      s.(scanner := Subtract, free := s.free + s.retired, retired := [],
         place := Recycled(s.place, s.retired))
    case FetchSub => s.(scanner := Waking, nArmed := s.nArmed - s.owed, owed := 0)
    case Signal => s.(signalled := s.signalled + 1)
    case WakeFaulted => s.(faulted := s.faulted + 1)
    case EndPass => s.(scanner := if s.probing || s.progress then Top else Gate)
    case CheckIdle => s.(scanner := if s.nArmed == 0 then Committed else Top)
    case Park => s.(scanner := Top, token := false)
    case SpuriousWake => s.(scanner := Top)
  }

  predicate Enabled(s: State, a: Action) {
    RegEnabled(s, a) || DevEnabled(s, a) || ScanEnabled(s, a)
  }

  function Apply(s: State, a: Action): State
    requires Enabled(s, a)
  {
    if RegEnabled(s, a) then RegApply(s, a)
    else if DevEnabled(s, a) then DevApply(s, a)
    else ScanApply(s, a)
  }

  // ---------------------------------------------------------------- invariant

  ghost predicate Shape(s: State) {
    |s.flag| == |s.payload| == |s.place|
  }

  ghost function One(b: bool): nat { if b then 1 else 0 }

  /** Registrants between the increment and the bit. */
  ghost function InFlight(s: State): set<Rid> {
    CountedIn(s.regs)
  }

  ghost function CountedIn(regs: map<Rid, Pc>): set<Rid> {
    set r | r in regs && regs[r].Counted?
  }

  ghost predicate IsPublished(s: State, r: Rid) {
    r in s.regs && (s.regs[r].Owing? || s.regs[r].Published?)
  }

  ghost predicate HasWrite(s: State, r: Rid, x: nat) {
    r in s.writes && s.writes[r].slot == x
  }

  /** What the state says about slot `x` agrees with its place. */
  ghost predicate SlotOk(s: State, x: nat)
    requires Shape(s) && x < s.N()
  {
    && (x in s.free <==> s.place[x].Free?)
    && (x in s.active <==> s.place[x].Armed?)
    && (x in s.retired <==> s.place[x].Retired?)
    && match s.place[x] {
      case Free => s.payload[x] == None
      case Claimed(r) =>
        && r in s.regs && s.regs[r].Holds() && s.regs[r].slot == x
        && s.payload[x] == (if s.regs[r].Loaded? || s.regs[r].Counted? then Some(r) else None)
        && (s.regs[r].Cleared? ==> !s.flag[x])
        && (r in s.writes ==> s.writes[r].slot == x && (s.flag[x] <==> s.writes[r].status.Landed?))
      case Armed(r) =>
        && IsPublished(s, r) && s.payload[x] == Some(r) && HasWrite(s, r, x)
        && (s.flag[x] <==> s.writes[r].status.Landed?)
      case Retired(r) =>
        && IsPublished(s, r) && HasWrite(s, r, x) && !s.writes[r].status.Queued?
        && s.payload[x] == (if s.scanner.Taking? && s.scanner.slot == x then Some(r) else None)
    }
  }

  ghost predicate IsArmed(s: State, r: Rid, x: nat)
    requires Shape(s) && x < s.N()
  {
    s.place[x] == Armed(r)
  }

  /** Cleared from the bitmap, payload not taken out of its cell yet. */
  ghost predicate InHand(s: State, r: Rid, x: nat)
    requires Shape(s) && x < s.N()
  {
    s.scanner.Taking? && s.scanner.slot == x && s.place[x] == Retired(r)
  }

  /** What the state says about registration `r` agrees with its program counter. */
  ghost predicate RegOk(s: State, r: Rid)
    requires Shape(s) && r in s.regs
  {
    if s.regs[r].Released? then r !in s.writes && r !in s.woken && r !in s.dead
    else if !s.regs[r].Holds() then PublishedOk(s, r)
    else
      && s.regs[r].slot < s.N() && s.place[s.regs[r].slot] == Claimed(r)
      && r !in s.woken && r !in s.dead
      && (r in s.writes <==> s.regs[r].Enqueued? || s.regs[r].Loaded? || s.regs[r].Counted?)
      && (r in s.writes ==> s.writes[r].slot == s.regs[r].slot)
  }

  /** A published payload is in exactly one place: armed, in hand, woken or dead. */
  ghost predicate PublishedOk(s: State, r: Rid)
    requires Shape(s)
  {
    && r in s.writes && s.writes[r].slot < s.N()
    && var x := s.writes[r].slot;
       var armed, hand := IsArmed(s, r, x), InHand(s, r, x);
       && (armed || hand || r in s.woken || r in s.dead)
       && (s.writes[r].status.Queued? ==> armed)
       && (r in s.woken ==> !armed && !hand && r !in s.dead && s.writes[r].status.Landed?)
       && (r in s.dead ==> !armed && !hand && !s.writes[r].status.Queued?)
  }

  /** The scanner's remaining snapshot names only armed slots, and its verdict is true of the device. */
  ghost predicate ScanOk(s: State)
    requires Shape(s)
  {
    && (s.scanner.HasBits() ==> s.scanner.bits <= s.active)
    && (s.scanner.Examining() ==> s.scanner.slot in s.active && s.scanner.slot !in s.scanner.bits)
    && (s.scanner.Taking? ==> s.scanner.slot in s.retired && s.scanner.slot !in s.active)
    && (s.scanner.InPass() ==> s.owed == |s.retired|)
    && (!s.scanner.InPass() ==> s.retired == [])
    && (!s.scanner.InPass() && !s.scanner.Subtract? ==> s.owed == 0)
    && (s.scanner.Clear? || s.scanner.Taking? ==>
          && s.scanner.slot < s.N() && !s.place[s.scanner.slot].Free?
          && s.place[s.scanner.slot].r in s.writes
          && (if s.scanner.landed then s.writes[s.place[s.scanner.slot].r].status.Landed?
              else !s.writes[s.place[s.scanner.slot].r].status.Queued?))
  }

  ghost predicate Lists(s: State)
    requires Shape(s)
  {
    && Distinct(s.free) && Distinct(s.retired) && Distinct(s.woken) && Distinct(s.dead)
    && (forall x :: x in s.free || x in s.active || x in s.retired ==> x < s.N())
    && (forall r :: r in s.woken || r in s.dead || r in s.writes ==> r in s.regs)
    && s.signalled <= |s.woken| && s.faulted <= |s.dead|
  }

  ghost predicate CounterOk(s: State) {
    s.nArmed == |s.active| + |InFlight(s)| + s.owed
  }

  /** A registrant that saw 0 -> 1 and has not unparked yet. */
  ghost predicate OwesUnpark(s: State, r: Rid) {
    r in s.regs && (s.regs[r].Owing? || (s.regs[r].Counted? && s.regs[r].wasIdle))
  }

  ghost predicate ParkOk(s: State) {
    s.scanner.Committed? && s.nArmed > 0 ==> s.token || exists r :: OwesUnpark(s, r)
  }

  ghost predicate SlotsOk(s: State)
    requires Shape(s)
  {
    forall x: nat :: x < s.N() ==> SlotOk(s, x)
  }

  ghost predicate RegsOk(s: State)
    requires Shape(s)
  {
    forall r :: r in s.regs ==> RegOk(s, r)
  }

  ghost predicate Inv(s: State) {
    Shape(s) && Lists(s) && SlotsOk(s) && RegsOk(s) && ScanOk(s) && CounterOk(s) && ParkOk(s)
  }

  lemma InitInv(n: nat)
    ensures Inv(Init(n))
  {
    var s := Init(n);
    assert InFlight(s) == {};
    forall x: nat | x < n ensures SlotOk(s, x) { assert s.free[n - 1 - x] == x; }
  }

  lemma SlotFact(s: State, x: nat)
    requires Inv(s) && x < s.N()
    ensures SlotOk(s, x)
  {
  }

  lemma RegFact(s: State, r: Rid)
    requires Inv(s) && r in s.regs
    ensures RegOk(s, r)
  {
  }

  // ------------------------------------------------------- registrant actions

  /** The slot a registrant action works on. */
  ghost function Slot(s: State, a: Action): nat
    requires RegEnabled(s, a) && (a.Unpark? ==> a.r in s.writes)
  {
    if a.Claim? then s.free[|s.free| - 1] else if a.Unpark? then s.writes[a.r].slot else s.regs[a.r].slot
  }

  lemma RegFacts(s: State, a: Action)
    requires Inv(s) && RegEnabled(s, a)
    ensures a.Claim? || RegOk(s, a.r)
    ensures a.Unpark? ==> a.r in s.writes
    ensures Slot(s, a) < s.N() && SlotOk(s, Slot(s, a))
    ensures a.Release? ==> Slot(s, a) !in s.free
    ensures a.Claim? ==> s.place[Slot(s, a)].Free? && a.r !in s.writes && a.r !in s.woken && a.r !in s.dead
  {
    assert a.Claim? || RegOk(s, a.r);
    if a.Claim? { assert Slot(s, a) in s.free; }
    assert SlotOk(s, Slot(s, a));
  }

  // The registrant actions by what they touch: the free list, the flag, the payload, counter and park token, or the bit.

  predicate IsFreeAction(a: Action) { a.Claim? || a.Release? }
  predicate IsFlagAction(a: Action) { a.ResetFlag? || a.Enqueue? || a.EnqueueFails? }
  predicate IsCountAction(a: Action) { a.StorePayload? || a.Increment? || a.Unpark? }

  lemma ClaimSlots(s: State, a: Action, x: nat)
    requires Inv(s) && a.Claim? && RegEnabled(s, a) && x < s.N()
    ensures var t := RegApply(s, a); Shape(t) && x < t.N() && SlotOk(t, x)
  {
    RegFacts(s, a);
    SlotFact(s, x);
    PopLast(s.free);
    hide SlotsOk, RegsOk, CounterOk, ParkOk, ScanOk;
  }

  lemma ReleaseSlots(s: State, a: Action, x: nat)
    requires Inv(s) && a.Release? && RegEnabled(s, a) && x < s.N()
    ensures var t := RegApply(s, a); Shape(t) && x < t.N() && SlotOk(t, x)
  {
    RegFacts(s, a);
    SlotFact(s, x);
    hide SlotsOk, RegsOk, CounterOk, ParkOk, ScanOk;
  }

  lemma FlagSlots(s: State, a: Action, x: nat)
    requires Inv(s) && IsFlagAction(a) && RegEnabled(s, a) && x < s.N()
    ensures var t := RegApply(s, a); Shape(t) && x < t.N() && SlotOk(t, x)
  {
    RegFacts(s, a);
    SlotFact(s, x);
    hide SlotsOk, RegsOk, CounterOk, ParkOk, ScanOk;
  }

  lemma CountSlots(s: State, a: Action, x: nat)
    requires Inv(s) && IsCountAction(a) && RegEnabled(s, a) && x < s.N()
    ensures var t := RegApply(s, a); Shape(t) && x < t.N() && SlotOk(t, x)
  {
    RegFacts(s, a);
    SlotFact(s, x);
    hide SlotsOk, RegsOk, CounterOk, ParkOk, ScanOk;
  }

  lemma SetBitSlots(s: State, a: Action, x: nat)
    requires Inv(s) && a.SetBit? && RegEnabled(s, a) && x < s.N()
    ensures var t := RegApply(s, a); Shape(t) && x < t.N() && SlotOk(t, x)
  {
    RegFacts(s, a);
    SlotFact(s, x);
    hide SlotsOk, RegsOk, CounterOk, ParkOk, ScanOk, Lists;
  }

  lemma RegSlots(s: State, a: Action, x: nat)
    requires Inv(s) && RegEnabled(s, a) && x < s.N()
    ensures var t := RegApply(s, a); Shape(t) && x < t.N() && SlotOk(t, x)
  {
    hide Inv, SlotOk, RegApply;
    if a.Claim? {
      ClaimSlots(s, a, x);
    } else if a.Release? {
      ReleaseSlots(s, a, x);
    } else if IsFlagAction(a) {
      FlagSlots(s, a, x);
    } else if IsCountAction(a) {
      CountSlots(s, a, x);
    } else {
      SetBitSlots(s, a, x);
    }
  }

  lemma FreeRegs(s: State, a: Action, r: Rid)
    requires Inv(s) && IsFreeAction(a) && RegEnabled(s, a) && r in RegApply(s, a).regs
    ensures var t := RegApply(s, a); Shape(t) && RegOk(t, r)
  {
    RegFacts(s, a);
    if r != a.r { RegFact(s, r); }
    hide SlotsOk, RegsOk, CounterOk, ParkOk, ScanOk;
  }

  lemma FlagRegs(s: State, a: Action, r: Rid)
    requires Inv(s) && IsFlagAction(a) && RegEnabled(s, a) && r in RegApply(s, a).regs
    ensures var t := RegApply(s, a); Shape(t) && RegOk(t, r)
  {
    RegFacts(s, a);
    if r != a.r { RegFact(s, r); }
    hide SlotsOk, RegsOk, CounterOk, ParkOk, ScanOk;
  }

  lemma UnparkRegs(s: State, a: Action, r: Rid)
    requires Inv(s) && a.Unpark? && RegEnabled(s, a) && r in RegApply(s, a).regs
    ensures var t := RegApply(s, a); Shape(t) && RegOk(t, r)
  {
    RegFact(s, r);
    hide SlotsOk, RegsOk, CounterOk, ParkOk, ScanOk, Lists;
  }

  lemma CountRegs(s: State, a: Action, r: Rid)
    requires Inv(s) && (a.StorePayload? || a.Increment?) && RegEnabled(s, a) && r in RegApply(s, a).regs
    ensures var t := RegApply(s, a); Shape(t) && RegOk(t, r)
  {
    RegFacts(s, a);
    if r != a.r { RegFact(s, r); }
    hide SlotsOk, RegsOk, CounterOk, ParkOk, ScanOk;
  }

  lemma SetBitRegs(s: State, a: Action, r: Rid)
    requires Inv(s) && a.SetBit? && RegEnabled(s, a) && r in RegApply(s, a).regs
    ensures var t := RegApply(s, a); Shape(t) && RegOk(t, r)
  {
    RegFacts(s, a);
    if r != a.r { RegFact(s, r); }
    hide SlotsOk, RegsOk, CounterOk, ParkOk, ScanOk;
  }

  lemma RegRegs(s: State, a: Action, r: Rid)
    requires Inv(s) && RegEnabled(s, a) && r in RegApply(s, a).regs
    ensures var t := RegApply(s, a); Shape(t) && RegOk(t, r)
  {
    hide Inv, RegOk, RegApply;
    if IsFreeAction(a) {
      FreeRegs(s, a, r);
    } else if IsFlagAction(a) {
      FlagRegs(s, a, r);
    } else if a.Unpark? {
      UnparkRegs(s, a, r);
    } else if IsCountAction(a) {
      CountRegs(s, a, r);
    } else {
      SetBitRegs(s, a, r);
    }
  }

  /** What a registrant action leaves alone. */
  ghost predicate Frames(s: State, a: Action, t: State)
    requires RegEnabled(s, a) && (a.Unpark? ==> a.r in s.writes)
  {
    && t == s.(flag := t.flag, active := t.active, payload := t.payload, free := t.free, nArmed := t.nArmed,
               regs := t.regs, writes := t.writes, token := t.token, place := t.place)
    && s.active <= t.active <= s.active + {Slot(s, a)} && |t.place| == |s.place| && Shape(t)
    && (forall x :: 0 <= x < |s.place| && x != Slot(s, a) ==> t.place[x] == s.place[x])
    && (forall r :: r in s.writes ==> r in t.writes && t.writes[r] == s.writes[r])
    && t.writes.Keys <= s.writes.Keys + {a.r} && t.regs.Keys == s.regs.Keys + {a.r}
    && t.free == (if a.Claim? then s.free[..|s.free| - 1] else if a.Release? then s.free + [Slot(s, a)] else s.free)
  }

  lemma FreeFrame(s: State, a: Action)
    requires IsFreeAction(a) && RegEnabled(s, a) && (a.Unpark? ==> a.r in s.writes) && Shape(s)
    requires a.Enqueue? ==> a.r !in s.writes
    ensures Frames(s, a, RegApply(s, a))
  {
  }

  lemma FlagFrame(s: State, a: Action)
    requires IsFlagAction(a) && RegEnabled(s, a) && (a.Unpark? ==> a.r in s.writes) && Shape(s)
    requires a.Enqueue? ==> a.r !in s.writes
    ensures Frames(s, a, RegApply(s, a))
  {
  }

  lemma CountFrame(s: State, a: Action)
    requires IsCountAction(a) && RegEnabled(s, a) && (a.Unpark? ==> a.r in s.writes) && Shape(s)
    requires a.Enqueue? ==> a.r !in s.writes
    ensures Frames(s, a, RegApply(s, a))
  {
  }

  lemma SetBitFrame(s: State, a: Action)
    requires a.SetBit? && RegEnabled(s, a) && (a.Unpark? ==> a.r in s.writes) && Shape(s)
    requires a.Enqueue? ==> a.r !in s.writes
    ensures Frames(s, a, RegApply(s, a))
  {
  }

  lemma RegFrame(s: State, a: Action)
    requires Inv(s) && RegEnabled(s, a)
    ensures (a.Unpark? ==> a.r in s.writes) && Shape(s) && Frames(s, a, RegApply(s, a))
  {
    RegFacts(s, a);
    assert Shape(s) && (a.Enqueue? ==> a.r !in s.writes);
    hide Inv, RegApply, SlotOk, RegOk, Frames;
    if IsFreeAction(a) {
      FreeFrame(s, a);
    } else if IsFlagAction(a) {
      FlagFrame(s, a);
    } else if IsCountAction(a) {
      CountFrame(s, a);
    } else {
      SetBitFrame(s, a);
    }
  }

  lemma RegFree(s: State, a: Action)
    requires Inv(s) && RegEnabled(s, a)
    ensures Distinct(RegApply(s, a).free) && forall x :: x in RegApply(s, a).free ==> x < s.N()
  {
    RegFacts(s, a);
    RegFrame(s, a);
    assert Distinct(s.free) && forall x :: x in s.free ==> x < s.N();
    hide Inv, RegApply, SlotOk, RegOk;
    var free := RegApply(s, a).free;
    if a.Claim? { PopLast(s.free); }
    if a.Release? { PushNew(s.free, Slot(s, a)); }
    forall x | x in free ensures x < s.N() { assert x in s.free || x == Slot(s, a); }
  }

  lemma RegLists(s: State, a: Action)
    requires Inv(s) && RegEnabled(s, a)
    ensures Shape(RegApply(s, a)) && Lists(RegApply(s, a))
  {
    RegFacts(s, a);
    RegFrame(s, a);
    RegFree(s, a);
    hide SlotsOk, RegsOk, CounterOk, ParkOk, ScanOk, SlotOk, RegOk, RegApply, RegEnabled, Distinct;
  }

  lemma RegScan(s: State, a: Action)
    requires Inv(s) && RegEnabled(s, a)
    ensures Shape(RegApply(s, a)) && ScanOk(RegApply(s, a))
  {
    RegFacts(s, a);
    RegFrame(s, a);
    hide SlotsOk, RegsOk, CounterOk, ParkOk, PublishedOk, RegApply, RegEnabled, RegOk;
    if s.scanner.Clear? || s.scanner.Taking? {
      SlotFact(s, s.scanner.slot);
    }
  }

  lemma CountedUpdate(regs: map<Rid, Pc>, r: Rid, pc: Pc)
    ensures |CountedIn(regs[r := pc])| ==
            |CountedIn(regs)| + One(pc.Counted?) - One(r in regs && regs[r].Counted?)
  {
    if pc.Counted? {
      assert CountedIn(regs[r := pc]) == CountedIn(regs) + {r};
    } else {
      assert CountedIn(regs[r := pc]) == CountedIn(regs) - {r};
    }
  }

  lemma RegCounter(s: State, a: Action)
    requires Inv(s) && RegEnabled(s, a)
    ensures CounterOk(RegApply(s, a))
  {
    hide SlotsOk, RegsOk, ParkOk, ScanOk, Lists;
    CountedUpdate(s.regs, a.r, RegApply(s, a).regs[a.r]);
    if a.SetBit? {
      RegFacts(s, a);
      assert s.regs[a.r].slot !in s.active;
    }
  }

  lemma RegPark(s: State, a: Action)
    requires ParkOk(s) && s.nArmed >= 0 && RegEnabled(s, a)
    ensures ParkOk(RegApply(s, a))
  {
    var t := RegApply(s, a);
    if t.scanner.Committed? && t.nArmed > 0 && !t.token {
      if a.Increment? && s.nArmed == 0 {
        assert OwesUnpark(t, a.r);
      } else {
        var r :| OwesUnpark(s, r);
        assert OwesUnpark(t, r);
      }
    }
  }

  lemma RegStep(s: State, a: Action)
    requires Inv(s) && RegEnabled(s, a)
    ensures Inv(RegApply(s, a))
  {
    RegLists(s, a);
    RegScan(s, a);
    RegCounter(s, a);
    RegPark(s, a);
    forall x: nat | x < s.N() { RegSlots(s, a, x); }
    forall r | r in RegApply(s, a).regs { RegRegs(s, a, r); }
  }

  // ------------------------------------------------------------ device actions

  lemma DevSlots(s: State, a: Action, x: nat)
    requires Inv(s) && DevEnabled(s, a) && x < s.N()
    ensures Shape(DevApply(s, a)) && SlotOk(DevApply(s, a), x)
  {
    assert RegOk(s, a.r);
    assert SlotOk(s, s.writes[a.r].slot);
    assert SlotOk(s, x);
  }

  lemma DevStep(s: State, a: Action)
    requires Inv(s) && DevEnabled(s, a)
    ensures Inv(DevApply(s, a))
  {
    var t := DevApply(s, a);
    assert t.regs == s.regs;
    assert RegOk(s, a.r);
    forall x: nat | x < s.N() { DevSlots(s, a, x); }
    forall r | r in t.regs ensures RegOk(t, r) { assert RegOk(s, r); }
    forall r | OwesUnpark(s, r) ensures OwesUnpark(t, r) {}
  }

  // ----------------------------------------------------------- scanner actions

  /** Scanner actions that touch nothing but the scanner's own locals (and the park token). */
  predicate Quiet(a: Action) {
    !(a.ClearBit? || a.TakePayload? || a.Append? || a.FetchSub?)
  }

  lemma QuietStep(s: State, a: Action)
    requires Inv(s) && ScanEnabled(s, a) && Quiet(a)
    ensures Inv(ScanApply(s, a))
  {
    hide SlotsOk, RegsOk, ScanOk, Lists, CounterOk, ScanApply, ScanEnabled;
    QuietFrame(s, a);
    SameTable(s, ScanApply(s, a));
    QuietScan(s, a);
  }

  lemma QuietFrame(s: State, a: Action)
    requires Inv(s) && ScanEnabled(s, a) && Quiet(a)
    ensures var t := ScanApply(s, a);
            && t == s.(scanner := t.scanner, probing := t.probing, progress := t.progress, token := t.token,
                       signalled := t.signalled, faulted := t.faulted)
            && !s.scanner.Taking? && !t.scanner.Taking?
            && s.signalled <= t.signalled <= |s.woken| && s.faulted <= t.faulted <= |s.dead| && ParkOk(t)
  {
    hide SlotsOk, RegsOk, ScanOk, CounterOk;
  }

  /** Slot and registration facts read no scanner local except "the payload of slot x is being taken". */
  lemma SameTable(s: State, t: State)
    requires Inv(s) && !s.scanner.Taking? && !t.scanner.Taking?
    requires t == s.(scanner := t.scanner, probing := t.probing, progress := t.progress, token := t.token,
                     signalled := t.signalled, faulted := t.faulted, nArmed := t.nArmed, owed := t.owed)
    requires t.signalled <= |s.woken| && t.faulted <= |s.dead|
    ensures Shape(t) && SlotsOk(t) && RegsOk(t) && Lists(t) && InFlight(t) == InFlight(s)
    ensures t.nArmed - t.owed == s.nArmed - s.owed ==> CounterOk(t)
  {
    forall x: nat | x < s.N() ensures SlotOk(t, x) { assert SlotOk(s, x); }
    forall r | r in t.regs ensures RegOk(t, r) { assert RegOk(s, r); }
  }

  lemma QuietScan(s: State, a: Action)
    requires Inv(s) && ScanEnabled(s, a) && Quiet(a)
    ensures Shape(ScanApply(s, a)) && ScanOk(ScanApply(s, a))
  {
    hide SlotsOk, RegsOk, PublishedOk, ParkOk, CounterOk;
    if s.scanner.Examining() { SlotFact(s, s.scanner.slot); }
  }

  lemma ClearStep(s: State)
    requires Inv(s) && ScanEnabled(s, ClearBit)
    ensures Inv(ScanApply(s, ClearBit))
  {
    var t := ScanApply(s, ClearBit);
    assert t.regs == s.regs;
    assert SlotOk(s, s.scanner.slot);
    forall x: nat | x < s.N() ensures SlotOk(t, x) { assert SlotOk(s, x); }
    forall r | r in t.regs ensures RegOk(t, r) { assert RegOk(s, r); }
  }

  /** The payload taken is the owner's, and it was in no list before. */
  lemma TakeFacts(s: State) returns (p: Rid)
    requires Inv(s) && ScanEnabled(s, TakePayload)
    ensures s.place[s.scanner.slot] == Retired(p) && s.payload[s.scanner.slot] == Some(p)
    ensures IsPublished(s, p) && p !in s.woken && p !in s.dead && HasWrite(s, p, s.scanner.slot)
    ensures if s.scanner.landed then s.writes[p].status.Landed? else !s.writes[p].status.Queued?
  {
    var x := s.scanner.slot;
    assert SlotOk(s, x);
    p := s.place[x].r;
    assert RegOk(s, p);
  }

  lemma TakeRegs(s: State, r: Rid)
    requires Inv(s) && ScanEnabled(s, TakePayload) && r in s.regs
    ensures Shape(ScanApply(s, TakePayload)) && RegOk(ScanApply(s, TakePayload), r)
  {
    var p := TakeFacts(s);
    RegFact(s, r);
    var t := ScanApply(s, TakePayload);
    TakeEffect(s, p, r);
    assert Shape(s);
    hide Inv, ScanApply;
    assert s.regs[r].Released? || s.regs[r].Holds() || PublishedOk(s, r);
  }

  /** What taking the payload of `p` does to the lists, for registration `r`. */
  lemma TakeEffect(s: State, p: Rid, r: Rid)
    requires ScanEnabled(s, TakePayload) && s.payload[s.scanner.slot] == Some(p)
    ensures var t := ScanApply(s, TakePayload);
            && (r in t.woken <==> r in s.woken || (s.scanner.landed && r == p))
            && (r in t.dead <==> r in s.dead || (!s.scanner.landed && r == p))
            && t.regs == s.regs && t.writes == s.writes && t.place == s.place && t.flag == s.flag
            && |t.payload| == |s.payload| && t.scanner.Bits?
  {
  }

  lemma TakeSlots(s: State, x: nat)
    requires Inv(s) && ScanEnabled(s, TakePayload) && x < s.N()
    ensures Shape(ScanApply(s, TakePayload)) && SlotOk(ScanApply(s, TakePayload), x)
  {
    hide SlotsOk, RegsOk, ParkOk, CounterOk, Lists;
    var p := TakeFacts(s);
    SlotFact(s, x);
  }

  lemma TakeStep(s: State)
    requires Inv(s) && ScanEnabled(s, TakePayload)
    ensures Inv(ScanApply(s, TakePayload))
  {
    hide SlotOk, RegOk;
    var p := TakeFacts(s);
    var t := ScanApply(s, TakePayload);
    assert t.regs == s.regs;
    if s.scanner.landed { PushNew(s.woken, p); } else { PushNew(s.dead, p); }
    assert Lists(t) && ScanOk(t);
    forall x: nat | x < s.N() { TakeSlots(s, x); }
    forall r | r in t.regs { TakeRegs(s, r); }
  }

  lemma AppendRegs(s: State, r: Rid)
    requires Inv(s) && ScanEnabled(s, Append) && r in s.regs
    ensures Shape(ScanApply(s, Append)) && RegOk(ScanApply(s, Append), r)
  {
    assert RegOk(s, r);
    var x := if s.regs[r].Holds() then s.regs[r].slot else if r in s.writes then s.writes[r].slot else 0;
    if x < s.N() { assert SlotOk(s, x); }
  }

  lemma AppendStep(s: State)
    requires Inv(s) && ScanEnabled(s, Append)
    ensures Inv(ScanApply(s, Append))
  {
    var t := ScanApply(s, Append);
    assert t.regs == s.regs;
    forall x: nat | x < s.N() ensures SlotOk(t, x) { assert SlotOk(s, x); }
    forall r | r in t.regs ensures RegOk(t, r) { AppendRegs(s, r); }
    forall i, j | 0 <= i < |s.free| && 0 <= j < |s.retired| ensures s.free[i] != s.retired[j] {
      assert s.free[i] in s.free && s.retired[j] in s.retired;
      assert SlotOk(s, s.free[i]);
    }
  }

  lemma SubStep(s: State)
    requires Inv(s) && ScanEnabled(s, FetchSub)
    ensures Inv(ScanApply(s, FetchSub))
    ensures s.nArmed >= s.owed
  {
    SameTable(s, ScanApply(s, FetchSub));
  }

  lemma ScanStep(s: State, a: Action)
    requires Inv(s) && ScanEnabled(s, a)
    ensures Inv(ScanApply(s, a))
  {
    hide ScanApply, ScanEnabled, Inv;
    if a.ClearBit? {
      ClearStep(s);
    } else if a.TakePayload? {
      TakeStep(s);
    } else if a.Append? {
      AppendStep(s);
    } else if a.FetchSub? {
      SubStep(s);
    } else {
      QuietStep(s, a);
    }
  }
}
