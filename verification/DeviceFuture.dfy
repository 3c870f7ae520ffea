/** A future that submits an operation to a stream when first polled and resolves when the stream has caught up. */
module DeviceFuture {
  import opened Prelude
  import S = Submission

  datatype FutureState = Failed | Idle | Executing | Complete

  datatype Error = CreatedFailed | LockBusy | NoContext | NoOperation | OperationFailed | DriverFault | CallbackFailed

  /** What a poll does to its caller. The last four are panics. */
  datatype PollResult =
    | Pending
    | ReadyOk(value: nat)
    | ReadyErr(error: Error)
    | OperationPanicked
    | PolledAfterCompletion
    | MissingResult
    | MissingError
  {
    predicate Ready() { ReadyOk? || ReadyErr? }
  }

  datatype OpOutcome = OpOk(value: nat) | OpErr | OpPanic

  datatype Answer = True | False | Fault

  /** Everything outside the future's control during one poll. `spins` are the answers of the stream queries made before
      the spin deadline, `flag1` and `flag2` the two loads of the completion flag, and `finished` whether the device has
      finished the submitted work by the end of the poll. */
  datatype PollEnv = PollEnv(
    lockOk: bool, retains: seq<S.Owner>, op: OpOutcome, spins: seq<Answer>, callbackOk: bool,
    flag1: bool, flag2: bool, health: S.Health, finished: bool)
  {
    /** Completion is only ever reported of work that is over. */
    ghost predicate Honest() {
      && (SpinOutcome(spins) == True ==> finished)
      && (flag1 || flag2 ==> finished)
      && (health.Idle? ==> finished)
    }
  }

  /** The first answer that is not "busy"; running out of time counts as busy. */
  function SpinOutcome(answers: seq<Answer>): Answer {
    if answers == [] then False else if answers[0] != False then answers[0] else SpinOutcome(answers[1..])
  }

  lemma {:induction false} SpinMeans(answers: seq<Answer>)
    ensures SpinOutcome(answers) == False <==> forall i :: 0 <= i < |answers| ==> answers[i] == False
    ensures SpinOutcome(answers) != False ==>
              exists i :: 0 <= i < |answers| && answers[i] == SpinOutcome(answers)
                          && forall j :: 0 <= j < i ==> answers[j] == False
    decreases |answers|
  {
    if answers != [] {
      SpinMeans(answers[1..]);
      if answers[0] != False {
        assert answers[0] == SpinOutcome(answers);
      } else if SpinOutcome(answers) != False {
        var i :| 0 <= i < |answers[1..]| && answers[1..][i] == SpinOutcome(answers)
                 && forall j :: 0 <= j < i ==> answers[1..][j] == False;
        assert answers[i + 1] == SpinOutcome(answers);
        assert forall j :: 0 <= j < i + 1 ==> answers[j] == if j == 0 then False else answers[1..][j - 1];
      }
    }
  }

  /** Where the output of the operation is. */
  datatype Fate = NoOutput | Stored | Delivered | Dropped | Leaked

  class DeviceFuture {
    var operation: Option<nat>
    var context: S.Submission?
    var result: Option<nat>
    var error: Option<Error>
    var state: FutureState
    var hasCallback: bool
    var faultDelivered: bool
    // Ledger.
    ghost var runs: nat
    ghost var output: Option<nat>
    ghost var fate: Fate
    ghost var readies: nat
    ghost var finished: bool

    /** What holds of the operation and its output at any time. */
    ghost predicate LedgerOk()
      reads this, context
    {
      && (context != null ==> context.Valid() && (context.done ==> finished))
      && runs <= 1 && (operation.Some? ==> runs == 0) && (runs == 0 ==> output.None?)
      && (fate.NoOutput? <==> output.None?)
      && (fate.Stored? <==> result.Some?) && (result.Some? ==> result == output && context != null)
      && (fate.Delivered? || fate.Dropped? ==> finished)
    }

    ghost predicate Valid()
      reads this, context
    {
      && LedgerOk()
      && (state.Complete? <==> readies == 1) && readies <= 1
      && (state.Failed? <==> error.Some?) && (state.Failed? ==> runs == 0)
      && (state.Idle? ==> output.None?)
      && (state.Executing? ==> result.Some? && hasCallback)
      && (runs == 0 && context != null ==> !context.done)
    }

    constructor Scheduled(op: nat, context: S.Submission)
      requires context.Valid() && !context.done
      ensures Valid() && state.Idle? && operation == Some(op) && this.context == context
      ensures runs == 0 && fate.NoOutput? && readies == 0 && !finished
    {
      operation, this.context, result, error := Some(op), context, None, None;
      state, hasCallback, faultDelivered := Idle, false, false;
      runs, output, fate, readies, finished := 0, None, NoOutput, 0, false;
    }

    /** A future that could not get a stream. */
    constructor Broken(e: Error)
      ensures Valid() && state.Failed? && error == Some(e) && context == null
      ensures fate.NoOutput? && readies == 0 && !finished
    {
      operation, context, result, error := None, null, None, Some(e);
      state, hasCallback, faultDelivered := Failed, false, false;
      runs, output, fate, readies, finished := 0, None, NoOutput, 0, false;
    }

    /** A poll that answers with the value has delivered it and released the owners; any other leaves it stored, if there
        is one. */
    ghost predicate Accounts(r: PollResult)
      reads this, context
    {
      if r.ReadyOk? then fate.Delivered? && output == Some(r.value) && finished && context != null && context.owners.None?
      else fate.Stored? || fate.NoOutput?
    }

    method Spin(answers: seq<Answer>) returns (r: Answer)
      ensures r == SpinOutcome(answers)
    {
      for i := 0 to |answers|
        invariant SpinOutcome(answers) == SpinOutcome(answers[i..])
      {
        assert answers[i..][1..] == answers[i + 1..];
        if answers[i] != False {
          return answers[i];
        }
      }
      r := False;
    }

    /** Runs the stored operation; it may retain owners on the way. */
    method Execute(e: PollEnv) returns (r: Result<(), Error>, panicked: bool)
      requires Valid() && state.Idle?
      modifies this`operation, this`result, this`runs, this`output, this`fate, context
      ensures if context == null then operation == old(operation) && r == Err(NoContext) && !panicked else operation.None?
      ensures runs == old(runs) + (if old(operation).Some? && context != null then 1 else 0)
      ensures context != null ==> context.Valid() && context.done == old(context.done)
      ensures context != null && old(operation).None? ==> r == Err(NoOperation) && !panicked
      ensures context != null && old(operation).Some? ==>
                && runs == 1 && (panicked <==> e.op.OpPanic?)
                && (!panicked ==> r == if e.op.OpOk? then Ok(()) else Err(OperationFailed))
      ensures panicked ==> result.None? && output.None? && fate.NoOutput?
      ensures !panicked && r.Ok? ==>
                e.op.OpOk? && runs == 1 && context != null && result == output == Some(e.op.value) && fate.Stored?
      ensures !panicked && r.Err? ==> result.None? && output.None? && fate.NoOutput?
    {
      hide S.Submission.Valid, S.Submission.Held;
      panicked := false;
      if context == null {
        r := Err(NoContext);
        return;
      }
      if operation.None? {
        r := Err(NoOperation);
        return;
      }
      operation := None;
      runs := runs + 1;
      for i := 0 to |e.retains|
        invariant context.Valid() && context.done == old(context.done)
        modifies context
      {
        var _ := context.Retain(e.retains[i]);
      }
      match e.op {
        case OpPanic =>
          panicked := true;
          r := Err(OperationFailed);
        case OpErr => r := Err(OperationFailed);
        case OpOk(v) =>
          result, output, fate := Some(v), Some(v), Stored;
          r := Ok(());
      }
    }

    /** Hands the stored result out and releases the owners: only with evidence that the work is over. */
    method TakeCompletedResult() returns (r: PollResult)
      requires context != null ==> context.Valid()
      requires result.Some? ==> result == output
      modifies this`result, this`fate, context
      ensures context != null ==> context.Valid() && context.done && context.owners.None?
      ensures result.None?
      ensures if old(result).Some? then r == ReadyOk(old(result).value) && fate.Delivered?
              else r == MissingResult && fate == old(fate)
    {
      if context != null {
        context.Complete();
      }
      if result.None? {
        return MissingResult;
      }
      r := ReadyOk(result.value);
      result := None;
      fate := Delivered;
    }

    /** The first poll: take the execution lock, submit, spin briefly, then register a completion callback. */
    method PollIdle(e: PollEnv) returns (r: PollResult)
      requires Valid() && state.Idle? && e.Honest() && (finished ==> e.finished)
      modifies this, context
      ensures Valid() && context == old(context) && finished == e.finished
      ensures r == FirstPoll(old(context) != null, old(operation).Some?, e)
      ensures runs == old(runs) + if e.lockOk && old(operation).Some? && old(context) != null then 1 else 0
      ensures state == (if r.Pending? then Executing else if r.OperationPanicked? then Idle else Complete)
      ensures Accounts(r)
      ensures r == ReadyErr(DriverFault) ==> faultDelivered
    {
      hide S.Submission.Valid, S.Submission.Held, SpinOutcome, PollEnv.Honest;
      hasCallback := true;
      finished := e.finished;
      if !e.lockOk {
        state, readies := Complete, readies + 1;
        return ReadyErr(LockBusy);
      }
      var ran, panicked := Execute(e);
      if panicked {
        return OperationPanicked;
      }
      if ran.Err? {
        state, readies := Complete, readies + 1;
        return ReadyErr(ran.error);
      }
      r := Resolve(e);
    }

    /** After submitting: a bounded spin on the stream, then the completion callback. */
    method Resolve(e: PollEnv) returns (r: PollResult)
      requires LedgerOk() && error.None? && fate.Stored? && state.Idle? && readies == 0 && hasCallback
      requires e.Honest() && finished == e.finished
      modifies this`state, this`readies, this`result, this`fate, this`faultDelivered, context
      ensures Valid() && Accounts(r)
      ensures r == match SpinOutcome(e.spins)
                   case True => ReadyOk(old(result).value)
                   case Fault => ReadyErr(DriverFault)
                   case False => if e.callbackOk then Pending else ReadyErr(CallbackFailed)
      ensures state == if r.Pending? then Executing else Complete
      ensures r == ReadyErr(DriverFault) ==> faultDelivered
    {
      hide S.Submission.Valid, S.Submission.Held;
      var spun := Spin(e.spins);
      match spun {
        case True =>
          state, readies := Complete, readies + 1;
          r := TakeCompletedResult();
          return;
        case Fault =>
          state, readies, faultDelivered := Complete, readies + 1, true;
          return ReadyErr(DriverFault);
        case False =>
      }
      if !e.callbackOk {
        state, readies := Complete, readies + 1;
        return ReadyErr(CallbackFailed);
      }
      state := Executing;
      r := Pending;
    }

    /** A later poll: flag, probe, register the new waker, flag again. */
    method PollExecuting(e: PollEnv) returns (r: PollResult)
      requires Valid() && state.Executing? && e.Honest() && (finished ==> e.finished)
      modifies this, context
      ensures Valid() && context == old(context) && finished == e.finished && runs == old(runs)
      ensures r == LaterPoll(old(result).value, e)
      ensures r.Pending? <==> !e.flag1 && !e.flag2 && (e.health.Busy? || e.health.Capturing?)
      ensures r == ReadyErr(DriverFault) <==> !e.flag1 && e.health.Faulted?
      ensures r == ReadyOk(old(result).value) <==> e.flag1 || e.health.Idle? || (e.flag2 && !e.health.Faulted?)
      ensures state == (if r.Pending? then Executing else Complete) && output == old(output)
      ensures Accounts(r)
      ensures r == ReadyErr(DriverFault) ==> faultDelivered
    {
      hide S.Submission.Valid, S.Submission.Held;
      finished := e.finished;
      if e.flag1 {
        state, readies := Complete, readies + 1;
        r := TakeCompletedResult();
        return;
      }
      match e.health {
        case Faulted =>
          state, readies, faultDelivered := Complete, readies + 1, true;
          return ReadyErr(DriverFault);
        case Idle =>
          state, readies := Complete, readies + 1;
          r := TakeCompletedResult();
          return;
        case Busy =>
        case Capturing =>
      }
      if e.flag2 {
        state, readies := Complete, readies + 1;
        r := TakeCompletedResult();
      } else {
        r := Pending;
      }
    }

    method Poll(e: PollEnv) returns (r: PollResult)
      requires Valid() && e.Honest() && (finished ==> e.finished)
      modifies this, context
      ensures Valid() && context == old(context) && finished == e.finished
      ensures !r.MissingResult? && !r.MissingError?
      ensures r.PolledAfterCompletion? <==> old(state).Complete?
      ensures old(state).Failed? ==> old(error).Some? && r == ReadyErr(old(error).value)
      ensures old(state).Idle? ==> r == FirstPoll(old(context) != null, old(operation).Some?, e)
      ensures old(state).Executing? ==>
                && old(result).Some?
                && (r.Pending? <==> !e.flag1 && !e.flag2 && (e.health.Busy? || e.health.Capturing?))
                && (r == ReadyErr(DriverFault) <==> !e.flag1 && e.health.Faulted?)
                && (r == ReadyOk(old(result).value) <==> e.flag1 || e.health.Idle? || (e.flag2 && !e.health.Faulted?))
      ensures state == if r.Pending? then Executing else if r.OperationPanicked? then Idle else Complete
      ensures r.Ready() <==> !old(state).Complete? && state.Complete?
      ensures !old(state).Complete? ==> Accounts(r)
      ensures old(state).Complete? ==>
                result == old(result) && output == old(output) && fate == old(fate) && state == old(state)
    {
      hide S.Submission.Valid, S.Submission.Held, SpinOutcome, PollEnv.Honest;
      if state.Failed? {
        state, readies, finished := Complete, readies + 1, e.finished;
        if error.None? {
          return MissingError;
        }
        r := ReadyErr(error.value);
        error := None;
        return;
      }
      match state {
        case Idle => r := PollIdle(e);
        case Executing => r := PollExecuting(e);
        case Complete =>
          finished := e.finished;
          hasCallback := true;
          r := PolledAfterCompletion;
      }
    }

    predicate HasUndelivered()
      reads this
    {
      (state.Executing? || state.Complete?) && result.Some?
    }

    /** Dropping the future: wait for submitted work, then drop the undelivered result, or leak it if the wait proves
        nothing; then drop the context with its own wait. */
    method Drop(w: S.WaitEnv, v: S.WaitEnv, ghost over: bool) returns (reported: bool)
      requires Valid() && (finished ==> over) && (w.Proves() || v.Proves() ==> over)
      modifies this, context
      ensures result.None? && runs == old(runs) && output == old(output) && finished == over
      ensures var proved := w.bindOk && (w.health.Idle? || (w.health.Busy? && w.syncOk));
              && fate == (if old(fate.Stored?) then (if proved then Dropped else Leaked) else old(fate))
              && (reported <==> old(fate.Stored?) && !proved && !old(faultDelivered))
      ensures context == old(context)
      ensures context != null ==> context.Valid() && context.owners.None? && (context.released != multiset{} ==> over)
    {
      reported := false;
      finished := over;
      if HasUndelivered() {
        result := None;
        if !w.Proves() {
          fate := Leaked;
          reported := !faultDelivered;
        } else {
          fate := Dropped;
        }
      }
      if context != null {
        context.Drop(v, over);
      }
    }
  }

  /** What the first poll answers, from the driver's and the operation's answers in order. */
  function FirstPoll(hasContext: bool, hasOperation: bool, e: PollEnv): PollResult {
    if !e.lockOk then ReadyErr(LockBusy)
    else if !hasContext then ReadyErr(NoContext)
    else if !hasOperation then ReadyErr(NoOperation)
    else
      match e.op
      case OpPanic => OperationPanicked
      case OpErr => ReadyErr(OperationFailed)
      case OpOk(v) =>
        match SpinOutcome(e.spins)
        case True => ReadyOk(v)
        case Fault => ReadyErr(DriverFault)
        case False => if e.callbackOk then Pending else ReadyErr(CallbackFailed)
  }

  /** When the first poll gives each of its answers. Once the operation has run, the first conclusive stream query decides,
      and without one the completion callback. */
  lemma FirstPollAnswers(hasContext: bool, hasOperation: bool, e: PollEnv)
    ensures var r := FirstPoll(hasContext, hasOperation, e);
            var ran := e.lockOk && hasContext && hasOperation;
            var busy := forall i :: 0 <= i < |e.spins| ==> e.spins[i] == False;
            && (r == ReadyErr(LockBusy) <==> !e.lockOk)
            && (r == ReadyErr(NoContext) <==> e.lockOk && !hasContext)
            && (r == ReadyErr(NoOperation) <==> e.lockOk && hasContext && !hasOperation)
            && (r == OperationPanicked <==> ran && e.op.OpPanic?)
            && (r == ReadyErr(OperationFailed) <==> ran && e.op.OpErr?)
            && (r == Pending <==> ran && e.op.OpOk? && busy && e.callbackOk)
            && (r == ReadyErr(CallbackFailed) <==> ran && e.op.OpOk? && busy && !e.callbackOk)
            && (r == ReadyErr(DriverFault) <==> ran && e.op.OpOk? && FirstToAnswer(e.spins, Fault))
            && (r.ReadyOk? <==> ran && e.op.OpOk? && FirstToAnswer(e.spins, True))
            && (r.ReadyOk? ==> r.value == e.op.value)
  {
    SpinMeans(e.spins);
    hide SpinOutcome;
  }

  /** The first query that did not answer "busy" answered `a`. */
  ghost predicate FirstToAnswer(spins: seq<Answer>, a: Answer) {
    exists i :: 0 <= i < |spins| && spins[i] == a && forall j :: 0 <= j < i ==> spins[j] == False
  }

  /** What a later poll answers. */
  function LaterPoll(value: nat, e: PollEnv): PollResult {
    if e.flag1 then ReadyOk(value)
    else if e.health.Faulted? then ReadyErr(DriverFault)
    else if e.health.Idle? || e.flag2 then ReadyOk(value)
    else Pending
  }

  /** A whole life: any polls against any honest environment, then the drop. */
  method Lifetime(f: DeviceFuture, polls: seq<PollEnv>, w: S.WaitEnv, v: S.WaitEnv, ghost over: bool)
    returns (answers: seq<PollResult>)
    requires f.Valid() && f.fate.NoOutput? && f.readies == 0 && !f.finished
    requires forall i :: 0 <= i < |polls| ==> polls[i].Honest() && (polls[i].finished ==> over)
    requires forall i, j :: 0 <= i < j < |polls| && polls[i].finished ==> polls[j].finished
    requires w.Proves() || v.Proves() ==> over
    modifies f, f.context
    ensures |answers| == |polls| && f.runs <= 1
    ensures forall i :: 0 <= i < |answers| ==> !answers[i].MissingResult? && !answers[i].MissingError?
    ensures forall i, j :: 0 <= i < j < |answers| ==> !(answers[i].Ready() && answers[j].Ready())
    ensures forall i :: 0 <= i < |answers| && answers[i].ReadyOk? ==> polls[i].finished && f.output == Some(answers[i].value)
    ensures f.fate.NoOutput? <==> f.output.None?
    ensures f.fate.Delivered? <==> exists i :: 0 <= i < |answers| && answers[i].ReadyOk?
    ensures !f.fate.Stored? && (f.fate.Dropped? ==> over && w.Proves()) && (f.fate.Leaked? ==> !w.Proves())
    ensures f.context == old(f.context)
    ensures f.context != null ==> f.context.Valid() && f.context.owners.None? && (f.context.released != multiset{} ==> over)
  {
    answers := [];
    for i := 0 to |polls|
      invariant f.Valid() && f.context == old(f.context) && |answers| == i
      invariant f.finished ==> i > 0 && polls[i - 1].finished
      invariant forall j :: 0 <= j < i ==> !answers[j].MissingResult? && !answers[j].MissingError?
      invariant forall j :: 0 <= j < i && answers[j].Ready() ==> f.state.Complete?
      invariant forall j, k :: 0 <= j < k < i ==> !(answers[j].Ready() && answers[k].Ready())
      invariant forall j :: 0 <= j < i && answers[j].ReadyOk? ==> polls[j].finished && f.output == Some(answers[j].value)
      invariant f.fate.Delivered? <==> exists j :: 0 <= j < i && answers[j].ReadyOk?
      invariant !f.fate.Dropped? && !f.fate.Leaked?
      modifies f, f.context
    {
      var r := f.Poll(polls[i]);
      answers := answers + [r];
    }
    var _ := f.Drop(w, v, over);
  }
}
