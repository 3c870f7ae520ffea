/**
 * The hand-off between `poll` and `signal`: a completion flag and a waker cell. One action is one atomic operation, so
 * the flag store and the wake of `signal`, and the load, probe, register and re-load of `poll`, interleave freely.
 */
module Wakeup {
  import opened Prelude

  /** Where the task is. Each poll brings its own waker, numbered by the poll. */
  datatype Task =
    | Unpolled
    | Submitting(waker: nat)      // first poll: waker registered, completion callback not yet
    | Suspended                   // the last poll returned Pending
    | Loading(waker: nat)         // a later poll, before its first look at the flag
    | Probing(waker: nat)         // flag was clear
    | Registering(waker: nat)     // stream was busy
    | Rechecking(waker: nat)      // waker registered, before its second look
    | Finished

  /** Where the completion signal is. A callback exists only once the first poll has registered it. */
  datatype Signaller = NoCallback | Armed | Stored | Woke

  datatype State = State(
    complete: bool, cell: Option<nat>, task: Task, signaller: Signaller, latest: Option<nat>, woken: set<nat>)

  function Init(): State { State(false, None, Unpolled, NoCallback, None, {}) }

  datatype Action =
    | FirstPoll(w: nat) | Callback | SubmitEnds
    | Poll(w: nat) | Load | Probe(settled: bool) | Register | Reload
    | StoreComplete | WakeSignal
    | WakeFault

  predicate Enabled(s: State, a: Action) {
    match a
    case FirstPoll(_) => s.task.Unpolled?
    case Callback => s.task.Submitting?
    case SubmitEnds => s.task.Submitting?
    case Poll(_) => s.task.Suspended?
    case Load => s.task.Loading?
    case Probe(_) => s.task.Probing?
    case Register => s.task.Registering?
    case Reload => s.task.Rechecking?
    case StoreComplete => s.signaller.Armed?
    case WakeSignal => s.signaller.Stored?
    case WakeFault => !s.signaller.NoCallback?
  }

  /** Putting a waker in the cell; `woken` is what has been woken since it was last stored. */
  function Store(s: State, w: nat): State { s.(cell := Some(w), latest := Some(w), woken := s.woken - {w}) }

  /** Taking the waker out of the cell and waking it. */
  function Wake(s: State): State {
    if s.cell.Some? then s.(cell := None, woken := s.woken + {s.cell.value}) else s
  }

  function Apply(s: State, a: Action): State
    requires Enabled(s, a)
  {
    match a
    case FirstPoll(w) => Store(s, w).(task := Submitting(w))
    case Callback => s.(task := Suspended, signaller := Armed)
    case SubmitEnds => s.(task := Finished)
    case Poll(w) => s.(task := Loading(w))
    case Load => s.(task := if s.complete then Finished else Probing(s.task.waker))
    case Probe(settled) => s.(task := if settled then Finished else Registering(s.task.waker))
    case Register => Store(s, s.task.waker).(task := Rechecking(s.task.waker))
    case Reload => s.(task := if s.complete then Finished else Suspended)
    case StoreComplete => s.(complete := true, signaller := Stored)
    case WakeSignal => Wake(s).(signaller := Woke)
    case WakeFault => Wake(s)
  }

  ghost predicate Inv(s: State) {
    && (s.complete <==> s.signaller.Stored? || s.signaller.Woke?)
    && (s.latest.Some? ==> s.latest.value in s.woken || s.cell == s.latest)
    && (s.signaller.Woke? && s.cell.Some? ==> s.task.Rechecking? || s.task.Finished?)
    && (!s.task.Unpolled? ==> s.latest.Some?)
    && (s.task.Unpolled? || s.task.Submitting? ==> s.signaller.NoCallback?)
  }

  ghost predicate Path(s: State, run: seq<Action>, t: State)
    decreases |run|
  {
    if run == [] then s == t else Enabled(s, run[0]) && Path(Apply(s, run[0]), run[1..], t)
  }

  lemma {:induction false} PathInv(s: State, run: seq<Action>, t: State)
    requires Inv(s) && Path(s, run, t)
    ensures Inv(t)
    decreases |run|
  {
    if run != [] {
      PathInv(Apply(s, run[0]), run[1..], t);
    }
  }

  /** No completion is lost: a suspended task whose operation completed has been woken through the waker of its latest
      poll, or the signaller is still about to wake it, and that wake reaches it. */
  lemma NoLostCompletion(run: seq<Action>, t: State)
    requires Path(Init(), run, t) && t.task.Suspended? && t.complete
    ensures t.latest.Some?
    ensures t.latest.value in t.woken
            || (t.signaller.Stored? && t.latest.value in Apply(t, WakeSignal).woken)
  {
    PathInv(Init(), run, t);
  }

  /** Of the flag's two looks in a later poll, each ends the poll exactly when the operation has completed; in between, the
      poll ends exactly when the probe finds the stream settled. */
  lemma PollEndsIff(s: State, a: Action)
    requires Enabled(s, a) && (a.Load? || a.Reload? || a.Probe?)
    ensures Apply(s, a).task.Finished? <==> if a.Probe? then a.settled else s.complete
    ensures !Apply(s, a).task.Finished? ==>
              Apply(s, a).task == if a.Load? then Probing(s.task.waker)
                                  else if a.Probe? then Registering(s.task.waker) else Suspended
    ensures Apply(s, a) == s.(task := Apply(s, a).task)
  {
  }

  /** The re-check is what makes this hold: whenever the signal overtakes the registration, the task comes to the re-check
      with its operation complete, its new waker unwoken, and the signaller with nothing left to do. */
  lemma RecheckMatters(run: seq<Action>, s: State)
    requires Path(Init(), run, s) && s.task.Registering? && s.signaller.Armed?
    ensures var t := Apply(Apply(Apply(s, StoreComplete), WakeSignal), Register);
            && t.task == Rechecking(s.task.waker) && t.complete && t.latest == Some(s.task.waker)
            && s.task.waker !in t.woken && !Enabled(t, StoreComplete) && !Enabled(t, WakeSignal)
            && Apply(t, Reload).task.Finished?
  {
    PathInv(Init(), run, s);
  }

  /** That overtaking happens. */
  lemma SignalOvertakes(run: seq<Action>)
    requires run == [FirstPoll(0), Callback, Poll(1), Load, Probe(false), StoreComplete, WakeSignal, Register]
    ensures exists t :: Path(Init(), run, t) && t.task.Rechecking? && t.complete && t.signaller.Woke?
                        && t.latest == Some(1) && 1 !in t.woken
  {
    var t := State(true, Some(1), Rechecking(1), Woke, Some(1), {0});
    var s4 := State(false, Some(0), Registering(1), Armed, Some(0), {});
    assert run[5..] == [StoreComplete, WakeSignal, Register];
    var u := Apply(Apply(Apply(s4, StoreComplete), WakeSignal), Register);
    assert u == t;
    assert run[5..][1..] == [WakeSignal, Register] && [WakeSignal, Register][1..] == [Register] && [Register][1..] == [];
    assert Path(s4, run[5..], t);
    FirstFive(run, s4, t);
  }

  lemma FirstFive(run: seq<Action>, s: State, t: State)
    requires |run| == 8 && run[..5] == [FirstPoll(0), Callback, Poll(1), Load, Probe(false)]
    requires s == State(false, Some(0), Registering(1), Armed, Some(0), {}) && Path(s, run[5..], t)
    ensures Path(Init(), run, t)
  {
    assert run[0] == FirstPoll(0) && run[1] == Callback && run[2] == Poll(1) && run[3] == Load && run[4] == Probe(false);
    assert run[4..][1..] == run[5..] && run[3..][1..] == run[4..] && run[2..][1..] == run[3..] && run[1..][1..] == run[2..];
    var s1 := Apply(Init(), FirstPoll(0));
    var s2 := Apply(s1, Callback);
    var s3 := Apply(s2, Poll(1));
    var s4 := Apply(s3, Load);
    assert Apply(s4, Probe(false)) == s;
    assert Path(s4, run[4..], t);
    assert Path(s3, run[3..], t);
    assert Path(s2, run[2..], t);
    assert Path(s1, run[1..], t);
  }
}
