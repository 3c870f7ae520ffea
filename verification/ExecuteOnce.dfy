/**
 * Execute-once memoization over any number of threads and calls. One action is one critical section of the mutex, one
 * condition-variable operation, or one submission to a stream; the code a thread runs outside the lock is interleaved
 * with everything else.
 */
module ExecuteOnce {
  import opened Prelude

  /** What `execute` is asked to take from the memoized value: a half of an unzipped pair, or a clone of all of it. */
  datatype Kind = Left | Right | Clone

  datatype Outcome = Got | Reentered | AlreadyTaken | JoinFailed | RunFailed | Panicked

  datatype Pc =
    | Start                        // about to lock and look at the state
    | Executing                    // running the operation outside the lock
    | Succeeded                    // the run returned Ok, event not recorded yet
    | Errored                      // the run returned Err
    | Unwinding                    // the run panicked
    | Recorded(event: nat, at: nat)
    | RecordFailed                 // no event: the value was leaked
    | Notifying(panicked: bool)    // settled, notify_all still to come
    | Asleep                       // waiting on the condition variable
    | Returned(outcome: Outcome)
  {
    predicate Runs() { Executing? || Succeeded? || Errored? || Unwinding? || Recorded? || RecordFailed? }
  }

  /** `hasRun`: the call still holds its closure. `mark`, `waitAt`: history, the stream position when the call returned
      and where it put its wait. */
  datatype Call = Call(thread: nat, stream: nat, kind: Kind, pc: Pc, hasRun: bool, mark: nat, waitAt: nat)

  /** The stream and event of the producing work, and (history) where the event was recorded. */
  datatype Producer = Producer(stream: nat, event: nat, at: nat)

  datatype Once = Pending | Running(thread: nat) | Done(left: bool, right: bool, producer: Option<Producer>) | Failed {
    predicate Settled() { Done? || Failed? }
  }

  /** What is on a stream: work of the memoized run, anything else, an event record, a wait for an event. */
  datatype Op = RunWork | OtherWork | Record(event: nat) | Wait(event: nat)

  /** `runner`, `leftTaker`, `rightTaker`, `runs` and `leaked` are history variables. */
  datatype State = State(
    once: Once, calls: map<nat, Call>, streams: map<nat, seq<Op>>, events: nat,
    runner: Option<nat>, leftTaker: Option<nat>, rightTaker: Option<nat>, runs: nat, leaked: nat)
  {
    function Queue(q: nat): seq<Op> { if q in streams then streams[q] else [] }

    function Push(q: nat, op: Op): State { this.(streams := streams[q := Queue(q) + [op]]) }

    function At(c: nat, pc: Pc): State
      requires c in calls
    {
      this.(calls := calls[c := calls[c].(pc := pc)])
    }
  }

  function InitPending(): State { State(Pending, map[], map[], 0, None, None, None, 0, 0) }

  /** Settled from the start with a value that has no device work behind it. */
  function InitDone(): State { State(Done(true, true, None), map[], map[], 0, None, None, None, 0, 0) }

  datatype Action =
    | Begin(c: nat, thread: nat, stream: nat, kind: Kind)
    | Look(c: nat, joinOk: bool)
    | Launch(c: nat)
    | Finish(c: nat, ok: bool)
    | Panic(c: nat)
    | RecordEvent(c: nat, ok: bool)
    | Settle(c: nat)
    | Notify(c: nat)
    | SpuriousWake(c: nat)
    | Submit(q: nat)

  predicate Is(s: State, c: nat, pc: Pc) { c in s.calls && s.calls[c].pc == pc }

  predicate Enabled(s: State, a: Action) {
    match a
    case Begin(c, _, _, _) => c !in s.calls
    case Look(c, _) => Is(s, c, Start)
    case Launch(c) => Is(s, c, Executing)
    case Finish(c, _) => Is(s, c, Executing)
    case Panic(c) => Is(s, c, Executing)
    case RecordEvent(c, _) => Is(s, c, Succeeded)
    case Settle(c) => c in s.calls && s.calls[c].pc.Runs() && !s.calls[c].pc.Executing? && !s.calls[c].pc.Succeeded?
    case Notify(c) => c in s.calls && s.calls[c].pc.Notifying?
    case SpuriousWake(c) => Is(s, c, Asleep)
    case Submit(_) => true
  }

  /** Handing the value out under the lock, with `c`'s stream already ordered. */
  function Take(s: State, c: nat): State
    requires c in s.calls && s.once.Done?
  {
    var k := s.calls[c];
    var got := s.(calls := s.calls[c := k.(pc := Returned(Got), mark := |s.Queue(k.stream)|)]);
    match k.kind
    case Clone => got
    case Left =>
      if s.once.left then got.(once := s.once.(left := false), leftTaker := Some(c))
      else s.At(c, Returned(AlreadyTaken))
    case Right =>
      if s.once.right then got.(once := s.once.(right := false), rightTaker := Some(c))
      else s.At(c, Returned(AlreadyTaken))
  }

  /** One turn of the loop in `execute`, under the lock. */
  function LookAt(s: State, c: nat, joinOk: bool): State
    requires c in s.calls
  {
    var k := s.calls[c];
    match s.once
    case Pending =>
      s.(once := Running(k.thread), calls := s.calls[c := k.(pc := Executing, hasRun := false)],
         runner := Some(c), runs := s.runs + 1)
    case Running(t) => s.At(c, if t == k.thread then Returned(Reentered) else Asleep)
    case Failed => s.At(c, Returned(RunFailed))
    case Done(_, _, producer) =>
      if producer.None? || producer.value.stream == k.stream then Take(s, c)
      else if !joinOk then s.At(c, Returned(JoinFailed))
      else
        var t := s.Push(k.stream, Wait(producer.value.event));
        Take(t.(calls := t.calls[c := k.(waitAt := |s.Queue(k.stream)|)]), c)
  }

  function WakeAll(calls: map<nat, Call>): map<nat, Call> {
    map c | c in calls :: if calls[c].pc.Asleep? then calls[c].(pc := Start) else calls[c]
  }

  function Apply(s: State, a: Action): State
    requires Enabled(s, a)
  {
    match a
    case Begin(c, thread, stream, kind) => s.(calls := s.calls[c := Call(thread, stream, kind, Start, true, 0, 0)])
    case Look(c, joinOk) => LookAt(s, c, joinOk)
    case Launch(c) => s.Push(s.calls[c].stream, RunWork)
    case Finish(c, ok) => s.At(c, if ok then Succeeded else Errored)
    case Panic(c) => s.At(c, Unwinding)
    case RecordEvent(c, ok) =>
      var q := s.calls[c].stream;
      if ok then s.Push(q, Record(s.events)).(events := s.events + 1).At(c, Recorded(s.events, |s.Queue(q)|))
      else s.(leaked := s.leaked + 1).At(c, RecordFailed)
    case Settle(c) =>
      var k := s.calls[c];
      var once := if k.pc.Recorded? then Done(true, true, Some(Producer(k.stream, k.pc.event, k.pc.at))) else Failed;
      s.(once := once).At(c, Notifying(k.pc.Unwinding?))
    case Notify(c) =>
      s.(calls := WakeAll(s.calls)).At(c, if s.calls[c].pc.panicked then Returned(Panicked) else Start)
    case SpuriousWake(c) => s.At(c, Start)
    case Submit(q) => s.Push(q, OtherWork)
  }

  // ---------------------------------------------------------------- invariant

  /** Who ran, and what the state says about it. */
  ghost predicate OnceOk(s: State) {
    && (s.runner.Some? ==> s.runner.value in s.calls)
    && s.runs == (if s.runner.Some? then 1 else 0)
    && s.leaked <= s.runs
    && match s.once
       case Pending => s.runner.None?
       case Running(t) => s.runner.Some? && s.calls[s.runner.value].thread == t && s.calls[s.runner.value].pc.Runs()
       case Done(_, _, p) => s.runner.Some? == p.Some? && s.leaked == 0
       case Failed => s.runner.Some?
  }

  ghost predicate TakersOk(s: State) {
    && (s.once.Done? ==> s.once.left == s.leftTaker.None? && s.once.right == s.rightTaker.None?)
    && (!s.once.Done? ==> s.leftTaker.None? && s.rightTaker.None?)
  }

  /** `e` was recorded once, at position `at` of stream `q`, after all work of the run. */
  ghost predicate Fenced(s: State, q: nat, e: nat, at: nat) {
    && e < s.events && at < |s.Queue(q)| && s.Queue(q)[at] == Record(e)
    && (forall p, j :: 0 <= j < |s.Queue(p)| && s.Queue(p)[j] == RunWork ==> p == q && j < at)
    && (forall p, j :: 0 <= j < |s.Queue(p)| && s.Queue(p)[j] == Record(e) ==> p == q && j == at)
  }

  ghost predicate StreamsOk(s: State) {
    && (forall p, j :: 0 <= j < |s.Queue(p)| && s.Queue(p)[j].Record? ==> s.Queue(p)[j].event < s.events)
    && (forall p, j :: 0 <= j < |s.Queue(p)| && s.Queue(p)[j] == RunWork
          ==> s.runner.Some? && s.runner.value in s.calls && p == s.calls[s.runner.value].stream)
    && (s.once.Done? && s.once.producer.Some? ==>
          Fenced(s, s.once.producer.value.stream, s.once.producer.value.event, s.once.producer.value.at))
  }

  /** Everything on `c`'s stream from `mark` on is behind the producer's event. */
  ghost predicate Joined(s: State, k: Call, p: Producer) {
    && k.mark <= |s.Queue(k.stream)|
    && if k.stream == p.stream then p.at < k.mark
       else k.waitAt < k.mark && s.Queue(k.stream)[k.waitAt] == Wait(p.event)
  }

  ghost predicate CallOk(s: State, c: nat)
    requires c in s.calls
  {
    var k := s.calls[c];
    && (k.hasRun <==> s.runner != Some(c))
    && (k.pc.Runs() ==> s.runner == Some(c) && s.once == Running(k.thread) && (s.leaked == 1 <==> k.pc.RecordFailed?))
    && (k.pc.Recorded? ==> Fenced(s, k.stream, k.pc.event, k.pc.at))
    && (k.pc.Notifying? ==> s.runner == Some(c) && s.once.Settled() && (k.pc.panicked ==> s.once.Failed?))
    && (k.pc == Returned(Panicked) ==> s.once.Failed?)
    && (k.pc.Asleep? ==> s.runner.Some? && s.runner != Some(c) && (s.once.Running? ==> s.once.thread != k.thread)
                         && (s.once.Settled() ==> s.runner.value in s.calls && s.calls[s.runner.value].pc.Notifying?))
    && (k.pc == Returned(Got) ==>
          && s.once.Done? && (s.once.producer.Some? ==> Joined(s, k, s.once.producer.value))
          && (k.kind.Left? ==> s.leftTaker == Some(c)) && (k.kind.Right? ==> s.rightTaker == Some(c)))
  }

  ghost predicate CallsOk(s: State) {
    forall c :: c in s.calls ==> CallOk(s, c)
  }

  ghost predicate Inv(s: State) {
    OnceOk(s) && TakersOk(s) && StreamsOk(s) && CallsOk(s)
  }

  lemma InitInv()
    ensures Inv(InitPending()) && Inv(InitDone())
  {
  }

  lemma CallFact(s: State, c: nat)
    requires Inv(s) && c in s.calls
    ensures CallOk(s, c)
  {
  }

  // ---------------------------------------------------------------- steps on a stream

  lemma PushQueue(s: State, q: nat, op: Op, p: nat)
    ensures s.Push(q, op).Queue(p) == if p == q then s.Queue(q) + [op] else s.Queue(p)
  {
  }

  /** Appending anything but run work or a record of `e` keeps a fence. */
  lemma FencePush(s: State, q: nat, op: Op, p: nat, e: nat, at: nat)
    requires Fenced(s, p, e, at) && op != RunWork && op != Record(e)
    ensures Fenced(s.Push(q, op), p, e, at)
  {
    forall r ensures s.Push(q, op).Queue(r) == if r == q then s.Queue(q) + [op] else s.Queue(r) { PushQueue(s, q, op, r); }
  }

  lemma JoinedPush(s: State, q: nat, op: Op, k: Call, p: Producer)
    requires Joined(s, k, p)
    ensures Joined(s.Push(q, op), k, p)
  {
    PushQueue(s, q, op, k.stream);
  }

  /** Submitting anything harmless keeps the invariant. */
  lemma PushInv(s: State, q: nat, op: Op)
    requires Inv(s) && (op.OtherWork? || op.Wait?)
    ensures Inv(s.Push(q, op))
  {
    var t := s.Push(q, op);
    forall r ensures t.Queue(r) == if r == q then s.Queue(q) + [op] else s.Queue(r) { PushQueue(s, q, op, r); }
    if s.once.Done? && s.once.producer.Some? {
      var p := s.once.producer.value;
      FencePush(s, q, op, p.stream, p.event, p.at);
    }
    hide Fenced, Joined;
    forall c | c in t.calls ensures CallOk(t, c) {
      CallFact(s, c);
      var k := s.calls[c];
      if k.pc.Recorded? { FencePush(s, q, op, k.stream, k.pc.event, k.pc.at); }
      if k.pc == Returned(Got) && s.once.producer.Some? { JoinedPush(s, q, op, k, s.once.producer.value); }
    }
  }

  /** The run submits to its own stream while it executes. */
  lemma LaunchInv(s: State, c: nat)
    requires Inv(s) && Is(s, c, Executing)
    ensures Inv(Apply(s, Launch(c)))
  {
    var q := s.calls[c].stream;
    var t := s.Push(q, RunWork);
    CallFact(s, c);
    forall r ensures t.Queue(r) == if r == q then s.Queue(q) + [RunWork] else s.Queue(r) { PushQueue(s, q, RunWork, r); }
    forall d | d in t.calls ensures CallOk(t, d) {
      CallFact(s, d);
    }
  }

  lemma RecordInv(s: State, c: nat, ok: bool)
    requires Inv(s) && Is(s, c, Succeeded)
    ensures Inv(Apply(s, RecordEvent(c, ok)))
  {
    var q := s.calls[c].stream;
    var t := Apply(s, RecordEvent(c, ok));
    CallFact(s, c);
    if ok {
      forall r ensures t.Queue(r) == if r == q then s.Queue(q) + [Record(s.events)] else s.Queue(r) {
        PushQueue(s, q, Record(s.events), r);
      }
      assert Fenced(t, q, s.events, |s.Queue(q)|);
    } else {
      assert forall p :: t.Queue(p) == s.Queue(p);
    }
    forall d | d in t.calls ensures CallOk(t, d) {
      CallFact(s, d);
    }
  }

  // ---------------------------------------------------------------- steps on the state

  lemma BeginInv(s: State, a: Action)
    requires Inv(s) && a.Begin? && Enabled(s, a)
    ensures Inv(Apply(s, a))
  {
    var t := Apply(s, a);
    assert forall p :: t.Queue(p) == s.Queue(p);
    forall d | d in t.calls ensures CallOk(t, d) {
      if d != a.c { CallFact(s, d); }
    }
  }

  /** A step that only moves one call: the run ends, a sleeper wakes by itself, or a caller gives up with an error. */
  ghost predicate Moves(s: State, c: nat, pc: Pc) {
    || (Is(s, c, Executing) && (pc.Succeeded? || pc.Errored? || pc.Unwinding?))
    || (Is(s, c, Asleep) && pc.Start?)
    || (Is(s, c, Start) && s.once.Done? && pc.Returned? && !pc.outcome.Got? && !pc.outcome.Panicked?)
  }

  lemma MoveInv(s: State, c: nat, pc: Pc)
    requires Inv(s) && Moves(s, c, pc)
    ensures Inv(s.At(c, pc))
  {
    var t := s.At(c, pc);
    CallFact(s, c);
    assert forall p :: t.Queue(p) == s.Queue(p);
    forall d | d in t.calls ensures CallOk(t, d) { CallFact(s, d); }
  }

  lemma SettleInv(s: State, c: nat)
    requires Inv(s) && Enabled(s, Settle(c))
    ensures Inv(Apply(s, Settle(c)))
  {
    var t := Apply(s, Settle(c));
    CallFact(s, c);
    assert forall p :: t.Queue(p) == s.Queue(p);
    forall d | d in t.calls ensures CallOk(t, d) { CallFact(s, d); }
  }

  lemma NotifyInv(s: State, c: nat)
    requires Inv(s) && Enabled(s, Notify(c))
    ensures Inv(Apply(s, Notify(c)))
  {
    var t := Apply(s, Notify(c));
    CallFact(s, c);
    assert forall p :: t.Queue(p) == s.Queue(p);
    forall d | d in t.calls ensures CallOk(t, d) { CallFact(s, d); }
  }

  /** Looking at a state that has no value yet. */
  lemma LookWaitInv(s: State, c: nat, joinOk: bool)
    requires Inv(s) && Is(s, c, Start) && !s.once.Done?
    ensures Inv(LookAt(s, c, joinOk))
  {
    var t := LookAt(s, c, joinOk);
    CallFact(s, c);
    assert forall p :: t.Queue(p) == s.Queue(p);
    forall d | d in t.calls ensures CallOk(t, d) { CallFact(s, d); }
  }

  /** Where a call put its wait is nobody else's business. */
  lemma WaitAtInv(s: State, c: nat, at: nat)
    requires Inv(s) && Is(s, c, Start)
    ensures Inv(s.(calls := s.calls[c := s.calls[c].(waitAt := at)]))
  {
    var t := s.(calls := s.calls[c := s.calls[c].(waitAt := at)]);
    CallFact(s, c);
    assert forall p :: t.Queue(p) == s.Queue(p);
    forall d | d in t.calls ensures CallOk(t, d) { CallFact(s, d); }
  }

  lemma TakeInv(s: State, c: nat)
    requires Inv(s) && Is(s, c, Start) && s.once.Done?
    requires s.once.producer.Some? ==> Joined(s, s.calls[c].(mark := |s.Queue(s.calls[c].stream)|), s.once.producer.value)
    ensures Inv(Take(s, c))
  {
    var k := s.calls[c].kind;
    if k.Clone? {
      GotInv(s, c, s.once, s.leftTaker, s.rightTaker);
    } else if (k.Left? && s.once.left) || (k.Right? && s.once.right) {
      if k.Left? {
        GotInv(s, c, s.once.(left := false), Some(c), s.rightTaker);
      } else {
        GotInv(s, c, s.once.(right := false), s.leftTaker, Some(c));
      }
    } else {
      MoveInv(s, c, Returned(AlreadyTaken));
    }
  }

  /** Returning the value, with the takers brought up to date. */
  lemma GotInv(s: State, c: nat, once: Once, left: Option<nat>, right: Option<nat>)
    requires Inv(s) && Is(s, c, Start) && s.once.Done? && once.Done? && once.producer == s.once.producer
    requires s.once.producer.Some? ==> Joined(s, s.calls[c].(mark := |s.Queue(s.calls[c].stream)|), s.once.producer.value)
    requires (left == s.leftTaker || s.leftTaker.None?) && (right == s.rightTaker || s.rightTaker.None?)
    requires once.left == left.None? && once.right == right.None?
    requires (s.calls[c].kind.Left? ==> left == Some(c)) && (s.calls[c].kind.Right? ==> right == Some(c))
    ensures var got := s.calls[c].(pc := Returned(Got), mark := |s.Queue(s.calls[c].stream)|);
            Inv(s.(calls := s.calls[c := got], once := once, leftTaker := left, rightTaker := right))
  {
    var got := s.calls[c].(pc := Returned(Got), mark := |s.Queue(s.calls[c].stream)|);
    var t := s.(calls := s.calls[c := got], once := once, leftTaker := left, rightTaker := right);
    CallFact(s, c);
    assert forall p :: t.Queue(p) == s.Queue(p);
    forall d | d in t.calls ensures CallOk(t, d) { CallFact(s, d); }
  }

  lemma LookDoneInv(s: State, c: nat, joinOk: bool)
    requires Inv(s) && Is(s, c, Start) && s.once.Done?
    ensures Inv(LookAt(s, c, joinOk))
  {
    var k := s.calls[c];
    var p := s.once.producer;
    if p.None? || p.value.stream == k.stream {
      TakeInv(s, c);
    } else if !joinOk {
      MoveInv(s, c, Returned(JoinFailed));
    } else {
      var at := |s.Queue(k.stream)|;
      var t := s.Push(k.stream, Wait(p.value.event));
      PushInv(s, k.stream, Wait(p.value.event));
      hide CallsOk;
      WaitAtInv(t, c, at);
      var u := t.(calls := t.calls[c := k.(waitAt := at)]);
      TakeInv(u, c);
    }
  }

  lemma StepInv(s: State, a: Action)
    requires Inv(s) && Enabled(s, a)
    ensures Inv(Apply(s, a))
  {
    hide Inv, LookAt;
    match a {
      case Begin(_, _, _, _) => BeginInv(s, a);
      case Look(c, joinOk) => if s.once.Done? { LookDoneInv(s, c, joinOk); } else { LookWaitInv(s, c, joinOk); }
      case Launch(c) => LaunchInv(s, c);
      case Finish(c, ok) => MoveInv(s, c, if ok then Succeeded else Errored);
      case Panic(c) => MoveInv(s, c, Unwinding);
      case RecordEvent(c, ok) => RecordInv(s, c, ok);
      case Settle(c) => SettleInv(s, c);
      case Notify(c) => NotifyInv(s, c);
      case SpuriousWake(c) => MoveInv(s, c, Start);
      case Submit(q) => PushInv(s, q, OtherWork);
    }
  }

  // ---------------------------------------------------------------- runs

  ghost predicate Path(s: State, run: seq<Action>, t: State)
    decreases |run|
  {
    if run == [] then s == t else Enabled(s, run[0]) && Path(Apply(s, run[0]), run[1..], t)
  }

  lemma {:induction false} PathInv(s: State, run: seq<Action>, t: State)
    requires Inv(s) && Path(s, run, t)
    ensures Inv(t)
    decreases |run|
  {
    hide Apply, Enabled, Inv;
    if run != [] {
      StepInv(s, run[0]);
      PathInv(Apply(s, run[0]), run[1..], t);
    }
  }

  /** Every state of every interleaving of any calls. */
  ghost predicate Reachable(t: State) {
    exists run :: Path(InitPending(), run, t) || Path(InitDone(), run, t)
  }

  lemma ReachableInv(t: State)
    requires Reachable(t)
    ensures Inv(t)
  {
    InitInv();
    var run :| Path(InitPending(), run, t) || Path(InitDone(), run, t);
    hide Path;
    if Path(InitPending(), run, t) { PathInv(InitPending(), run, t); } else { PathInv(InitDone(), run, t); }
  }

  // ---------------------------------------------------------------- theorems

  /** The operation is run at most once, and a caller that finds it pending still has its closure. */
  lemma RunsOnce(t: State)
    requires Reachable(t)
    ensures t.runs <= 1 && t.leaked <= t.runs
    ensures forall c :: Is(t, c, Start) && t.once.Pending? ==> t.calls[c].hasRun
  {
    ReachableInv(t);
    forall c | Is(t, c, Start) && t.once.Pending? ensures t.calls[c].hasRun { CallFact(t, c); }
  }

  /** Pending, then running, then settled; a settled outcome never changes except for halves being taken. */
  function Rank(o: Once): nat {
    match o
    case Pending => 0
    case Running(_) => 1
    case Done(_, _, _) => 2
    case Failed => 2
  }

  ghost predicate Later(o: Once, p: Once) {
    && Rank(o) <= Rank(p) <= Rank(o) + 1
    && (o.Running? && p.Running? ==> o == p)
    && (o.Failed? ==> p.Failed?)
    && (o.Done? ==> p.Done? && p.producer == o.producer && (p.left ==> o.left) && (p.right ==> o.right))
  }

  lemma StateMonotone(s: State, a: Action)
    requires Inv(s) && Enabled(s, a)
    ensures Later(s.once, Apply(s, a).once)
  {
    if a.Settle? || a.Look? { CallFact(s, a.c); }
  }

  /** Over a whole run a settled outcome stays what it is. */
  lemma {:induction false} SettledForGood(s: State, run: seq<Action>, t: State)
    requires Inv(s) && Path(s, run, t) && s.once.Settled()
    ensures t.once.Settled() && (s.once.Failed? <==> t.once.Failed?) && t.runs == s.runs
    ensures s.once.Done? ==> t.once.producer == s.once.producer
    decreases |run|
  {
    hide Apply, Enabled, Inv;
    if run != [] {
      StepInv(s, run[0]);
      StateMonotone(s, run[0]);
      SettledRuns(s, run[0]);
      SettledForGood(Apply(s, run[0]), run[1..], t);
    }
  }

  lemma SettledRuns(s: State, a: Action)
    requires Enabled(s, a) && s.once.Settled()
    ensures Apply(s, a).runs == s.runs
  {
  }

  // ---------------------------------------------------------------- what the settled outcome says about the run

  ghost predicate Ran(s: State, c: nat) { s.runner == Some(c) && c in s.calls }

  /** Call `c` has run the operation and the run returned Ok, as far as can still be seen. */
  ghost predicate ReturnedOk(s: State, c: nat) {
    Ran(s, c) && (s.calls[c].pc.Succeeded? || s.calls[c].pc.Recorded? || s.once.Done?)
  }

  /** Call `c` has run the operation and recorded its event. */
  ghost predicate RecordedOk(s: State, c: nat) {
    Ran(s, c) && (s.calls[c].pc.Recorded? || s.once.Done?)
  }

  /** Call `c` has run the operation and it came to nothing. */
  ghost predicate CameToNothing(s: State, c: nat) {
    Ran(s, c) && (s.calls[c].pc.Errored? || s.calls[c].pc.Unwinding? || s.calls[c].pc.RecordFailed? || s.once.Failed?)
  }

  predicate Fails(a: Action, c: nat) {
    a == Finish(c, false) || a == Panic(c) || a == RecordEvent(c, false)
  }

  /** What a step adds to what can be seen of `c`'s run. */
  ghost predicate Traced(s: State, a: Action, t: State, c: nat) {
    && (ReturnedOk(t, c) ==> ReturnedOk(s, c) || a == Finish(c, true))
    && (RecordedOk(t, c) <==> RecordedOk(s, c) || a == RecordEvent(c, true))
    && (CameToNothing(t, c) <==> CameToNothing(s, c) || Fails(a, c))
    && ((s.once.Done? ==> s.runner.Some?) ==> (t.once.Done? ==> t.runner.Some?))
  }

  lemma LookOutcome(s: State, d: nat, joinOk: bool, c: nat)
    requires Is(s, d, Start) && (s.once.Pending? ==> s.runner.None?)
    ensures Traced(s, Look(d, joinOk), LookAt(s, d, joinOk), c)
  {
    LookAnswers(s, d, joinOk);
    LookRunner(s, d, joinOk);
    hide LookAt;
  }

  lemma LookRunner(s: State, d: nat, joinOk: bool)
    requires Is(s, d, Start)
    ensures LookAt(s, d, joinOk).runner == if s.once.Pending? then Some(d) else s.runner
  {
  }

  lemma SettleOutcome(s: State, d: nat, c: nat)
    requires Inv(s) && Enabled(s, Settle(d))
    ensures Traced(s, Settle(d), Apply(s, Settle(d)), c)
  {
    CallFact(s, d);
    hide CallsOk, StreamsOk, TakersOk, Fenced, Joined;
  }

  lemma OtherOutcome(s: State, a: Action, c: nat)
    requires Enabled(s, a) && !a.Look? && !a.Settle?
    requires !a.Submit? && a.c in s.calls && s.calls[a.c].pc.Runs() ==> s.runner == Some(a.c) && s.once.Running?
    requires !a.Submit? && a.c in s.calls && s.calls[a.c].pc.Notifying? ==> s.once.Settled()
    requires a.Begin? ==> s.runner != Some(a.c)
    ensures Traced(s, a, Apply(s, a), c)
  {
  }

  lemma StepOutcome(s: State, a: Action, c: nat)
    requires Inv(s) && Enabled(s, a)
    ensures Traced(s, a, Apply(s, a), c)
  {
    if a.Look? {
      hide CallsOk, StreamsOk, TakersOk, LookAt, Traced;
      LookOutcome(s, a.c, a.joinOk, c);
    } else if a.Settle? {
      SettleOutcome(s, a.c, c);
    } else {
      if !a.Submit? && a.c in s.calls { CallFact(s, a.c); }
      hide CallsOk, StreamsOk, TakersOk, Fenced, Joined, Apply, Traced;
      OtherOutcome(s, a, c);
    }
  }

  lemma {:induction false} PathOutcome(s: State, run: seq<Action>, t: State, c: nat)
    requires Inv(s) && Path(s, run, t)
    ensures ReturnedOk(t, c) ==> ReturnedOk(s, c) || Finish(c, true) in run
    ensures RecordedOk(t, c) <==> RecordedOk(s, c) || RecordEvent(c, true) in run
    ensures CameToNothing(t, c) <==> CameToNothing(s, c) || exists a :: a in run && Fails(a, c)
    ensures (s.once.Done? ==> s.runner.Some?) ==> (t.once.Done? ==> t.runner.Some?)
    decreases |run|
  {
    hide Apply, Enabled, Inv, ReturnedOk, RecordedOk, CameToNothing;
    if run != [] {
      StepInv(s, run[0]);
      StepOutcome(s, run[0], c);
      PathOutcome(Apply(s, run[0]), run[1..], t, c);
      assert run == [run[0]] + run[1..];
    }
  }

  /** Over every run from the start, the outcome is settled as what the one execution did: done exactly when its event was
      recorded, which takes a run that returned Ok, and failed exactly when the run returned Err, panicked, or returned Ok
      and the event could not be recorded. */
  lemma SettledAsRun(run: seq<Action>, t: State)
    requires Path(InitPending(), run, t) && t.once.Settled()
    ensures t.runner.Some?
    ensures var c := t.runner.value;
            && (t.once.Done? <==> RecordEvent(c, true) in run)
            && (t.once.Done? ==> Finish(c, true) in run)
            && (t.once.Failed? <==> Finish(c, false) in run || Panic(c) in run || RecordEvent(c, false) in run)
  {
    InitInv();
    PathInv(InitPending(), run, t);
    PathOutcome(InitPending(), run, t, 0);
    var c := t.runner.value;
    PathOutcome(InitPending(), run, t, c);
    assert Fails(Finish(c, false), c) && Fails(Panic(c), c) && Fails(RecordEvent(c, false), c);
  }

  /** The four ways one execution can go, from inside the operation to the settled outcome. */
  lemma ExecutionSettles(s: State, c: nat)
    requires Is(s, c, Executing)
    ensures var u := Apply(s, Finish(c, true));
            var v, w := Apply(u, RecordEvent(c, true)), Apply(u, RecordEvent(c, false));
            var q := s.calls[c].stream;
            && Apply(v, Settle(c)).once == Done(true, true, Some(Producer(q, s.events, |s.Queue(q)|)))
            && v.Queue(q) == s.Queue(q) + [Record(s.events)] && v.leaked == s.leaked
            && Apply(w, Settle(c)).once == Failed && w.leaked == s.leaked + 1
    ensures Apply(Apply(s, Finish(c, false)), Settle(c)).once == Failed
    ensures var q := s.calls[c].stream;
            Apply(s, Launch(c)).Queue(q) == s.Queue(q) + [RunWork] && Apply(s, Launch(c)).calls == s.calls
    ensures var t := Apply(Apply(s, Panic(c)), Settle(c));
            t.once == Failed && Apply(t, Notify(c)).calls[c].pc == Returned(Panicked)
  {
  }

  /** Every answer of one turn of the loop in `execute`. */
  lemma LookAnswers(s: State, c: nat, joinOk: bool)
    requires Is(s, c, Start)
    ensures var k, t := s.calls[c], Apply(s, Look(c, joinOk));
            && c in t.calls && t.calls == s.calls[c := t.calls[c]]
            && match s.once {
              case Pending => t.once == Running(k.thread) && t.calls[c].pc == Executing && t.runs == s.runs + 1
              case Running(th) => t.once == s.once && t.calls[c].pc == if th == k.thread then Returned(Reentered) else Asleep
              case Failed => t.once == Failed && t.calls[c].pc == Returned(RunFailed)
              case Done(left, right, p) =>
                var elsewhere := p.Some? && p.value.stream != k.stream;
                if elsewhere && !joinOk then
                  t.once == s.once && t.calls[c].pc == Returned(JoinFailed) && t.streams == s.streams
                else
                  && t.Queue(k.stream) == s.Queue(k.stream) + (if elsewhere then [Wait(p.value.event)] else [])
                  && (t.calls[c].pc == Returned(Got) || t.calls[c].pc == Returned(AlreadyTaken))
                  && (t.calls[c].pc == Returned(Got) <==> k.kind.Clone? || (k.kind.Left? && left) || (k.kind.Right? && right))
                  && t.once == Done(left && !k.kind.Left?, right && !k.kind.Right?, p)
            }
  {
  }

  /** A panic settles the operation as failed. */
  lemma PanicFails(t: State, c: nat)
    requires Reachable(t) && c in t.calls
    requires t.calls[c].pc == Notifying(true) || t.calls[c].pc == Returned(Panicked)
    ensures t.once.Failed?
  {
    ReachableInv(t);
    CallFact(t, c);
  }

  /** No thread ever sleeps on its own execution: re-entering it is an error that changes nothing else. */
  lemma ReentryErrors(s: State, c: nat, joinOk: bool)
    requires Reachable(s) && c in s.calls && s.once == Running(s.calls[c].thread)
    ensures !s.calls[c].pc.Asleep?
    ensures s.calls[c].pc.Start? ==>
              var t := Apply(s, Look(c, joinOk));
              && t == s.(calls := t.calls) && t.calls.Keys == s.calls.Keys
              && t.calls[c] == s.calls[c].(pc := Returned(Reentered))
              && forall d :: d in s.calls && d != c ==> t.calls[d] == s.calls[d]
  {
    ReachableInv(s);
    CallFact(s, c);
  }

  /** Once settled, a sleeper implies that the call that ran still owes its notification. */
  lemma NobodyLeftAsleep(t: State, c: nat)
    requires Reachable(t) && t.once.Settled() && Is(t, c, Asleep)
    ensures t.runner.Some? && t.runner.value in t.calls && t.calls[t.runner.value].pc.Notifying?
    ensures Apply(t, Notify(t.runner.value)).calls[c].pc == Start
  {
    ReachableInv(t);
    CallFact(t, c);
  }

  /** Each half of an unzipped pair is handed to at most one call. */
  lemma HalvesOnce(t: State, c: nat, d: nat)
    requires Reachable(t) && Is(t, c, Returned(Got)) && Is(t, d, Returned(Got))
    requires t.calls[c].kind == t.calls[d].kind && !t.calls[c].kind.Clone?
    ensures c == d
  {
    ReachableInv(t);
    CallFact(t, c);
    CallFact(t, d);
  }

  /** Operation `j` of stream `q` waits for the event that operation `i` of stream `p` records. */
  ghost predicate WaitsFor(t: State, p: nat, i: nat, q: nat, j: nat) {
    i < |t.Queue(p)| && j < |t.Queue(q)| && t.Queue(p)[i].Record? && t.Queue(q)[j] == Wait(t.Queue(p)[i].event)
  }

  /** When each submitted operation takes effect: in order on one stream, and a wait after the event it waits for. */
  ghost predicate Schedule(t: State, time: (nat, nat) -> int) {
    && (forall q, i, j :: 0 <= i < j < |t.Queue(q)| ==> time(q, i) < time(q, j))
    && forall p, q, i, j :: WaitsFor(t, p, i, q, j) ==> time(p, i) < time(q, j)
  }

  /** Whatever a consumer submits after `execute` gave it the value takes effect after all the work of the run. */
  lemma ConsumersAreOrdered(t: State, c: nat, time: (nat, nat) -> int, p: nat, i: nat, k: nat)
    requires Reachable(t) && Is(t, c, Returned(Got)) && Schedule(t, time)
    requires i < |t.Queue(p)| && t.Queue(p)[i] == RunWork
    requires t.calls[c].mark <= k < |t.Queue(t.calls[c].stream)|
    ensures time(p, i) < time(t.calls[c].stream, k)
  {
    ReachableInv(t);
    CallFact(t, c);
    var call := t.calls[c];
    var q, prod := call.stream, t.once.producer.value;
    assert p == prod.stream && i < prod.at;
    assert time(p, i) < time(p, prod.at);
    if q != p {
      assert WaitsFor(t, p, prod.at, q, call.waitAt);
    }
  }
}
