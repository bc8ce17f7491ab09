/** Every step keeps the invariant of RunSpec, and no step revives a run that is over. */
module RunSteps {
  import opened RunSpec
  import opened RunProofs

  /** A finished run never becomes active again. */
  ghost predicate NoRevival(s: State, s': State) {
    forall r :: r in s.runs ==>
      r in s'.runs && (!IsActive(s.runs[r].status) ==> !IsActive(s'.runs[r].status))
  }

  lemma TouchRevival(s: State, s': State, r: RunId)
    requires WellFormed(s) && r in s.runs && Touches(s, s', r)
    requires IsActive(s'.runs[r].status) ==> IsActive(s.runs[r].status)
    ensures NoRevival(s, s')
  {
    forall q | q in s.runs ensures !IsActive(s.runs[q].status) ==> !IsActive(s'.runs[q].status) {
      assert q != r ==> Same(s, s', q);
    }
  }

  /** The obligations of a step confined to one run. */
  lemma Confined(s: State, s': State, r: RunId)
    requires Inv(s) && r in s.runs && Touches(s, s', r)
    requires IsActive(s'.runs[r].status) ==> IsActive(s.runs[r].status)
    requires RunOk(s', r)
    ensures Inv(s') && NoRevival(s, s')
  {
    TouchedRunKeepsInv(s, s', r);
    TouchRevival(s, s', r);
  }

  // ----- logs of one run

  /** Logging something that is not a status leaves the agreement as it is. */
  lemma QuietAppend(s: State, r: RunId, e: Event)
    requires r in s.runs && s.runs[r].output in s.messages && LogAgrees(s, r)
    requires !IsStatusEvent(e) && s.runs[r].status != Completed
    ensures LogAgrees(Append(s, r, e), r)
  {
    StatusOfAppend(Log(s, r), e);
  }

  lemma FinalizedAgrees(s: State, r: RunId, reply: string)
    requires WellFormed(s) && r in s.runs
    ensures var s' := Finalized(s, r, reply);
            && r in s'.runs && s'.runs[r] == s.runs[r].(status := Completed) && s'.runs[r].output in s'.messages
            && LogAgrees(s', r) && s'.tasks == s.tasks && s'.toolCalls == s.toolCalls
            && s'.messages[s.runs[r].output].content == reply
            && Log(s', r) == Log(s, r) + [MessageCompleted(reply)] + [RunCompleted]
  {
    StatusOfAppend(Log(s, r) + [MessageCompleted(reply)], RunCompleted);
  }

  lemma FailedAgrees(s: State, r: RunId, why: string)
    requires WellFormed(s) && r in s.runs
    ensures var s' := FailedRun(s, r, why);
            && r in s'.runs && s'.runs[r] == s.runs[r].(status := Failed) && s'.runs[r].output in s'.messages
            && LogAgrees(s', r) && s'.tasks == s.tasks && s'.toolCalls == s.toolCalls
  {
    StatusOfAppend(Log(s, r) + [MessageFailed], RunFailed);
  }

  lemma CancelledAgrees(s: State, r: RunId, waiting: Option<ToolCallId>)
    requires WellFormed(s) && r in s.runs && WellFormed(CallWithdrawn(s, r, waiting))
    ensures var a := CallWithdrawn(s, r, waiting);
            var s' := CancelledRun(s, r, waiting);
            && r in s'.runs && s'.runs[r] == s.runs[r].(status := Cancelled) && s'.runs[r].output in s'.messages
            && LogAgrees(s', r) && s'.tasks == s.tasks && s'.toolCalls == a.toolCalls
            && Log(s', r) == Log(a, r) + [MessageWasCancelled] + [RunCancelled]
  {
    var a := CallWithdrawn(s, r, waiting);
    assert a.runs == s.runs && a.messages == s.messages && a.tasks == s.tasks;
    assert s.runs[r].output in s.messages;
    hide CallWithdrawn, WellFormed, LogAgrees;
    CancelledLogAgrees(CancelledRun(s, r, waiting), r, Log(a, r) + [MessageWasCancelled]);
  }

  lemma CancelledLogAgrees(s: State, r: RunId, before: seq<Event>)
    requires r in s.runs && s.runs[r].output in s.messages && Log(s, r) == before + [RunCancelled]
    requires s.runs[r].status == Cancelled && s.messages[s.runs[r].output].status == MessageCancelled
    ensures LogAgrees(s, r)
  {
    StatusOfAppend(before, RunCancelled);
  }

  // ----- runs that are over

  /** A run that is over, without tasks or waiting calls. */
  lemma OverIsOk(s: State, r: RunId)
    requires r in s.runs && s.runs[r].output in s.messages && LogAgrees(s, r)
    requires !IsActive(s.runs[r].status)
    requires forall c :: !Waiting(s, c, r)
    requires forall t :: !InFlight(s, t, r)
    ensures RunOk(s, r)
  {}

  /** What is left waiting once a call has been given another status. */
  lemma OnlyOthersWait(s: State, r: RunId, c: ToolCallId, status: ToolCallStatus, output: Option<string>)
    requires status != WaitingHuman && c in s.toolCalls
    ensures forall d :: Waiting(SetCall(s, c, status, output), d, r) <==> Waiting(s, d, r) && d != c
  {}

  /** Once the call of its task is settled, nothing of the run waits. */
  lemma SettledCall(s: State, t: TaskId, r: RunId, status: ToolCallStatus, output: Option<string>)
    requires WellFormed(s) && r in s.runs && InFlight(s, t, r) && TasksCoordinated(s, r) && CallsCoordinated(s, r)
    requires status != WaitingHuman
    ensures s.tasks[t].resumed.Some? ==>
              forall d :: !Waiting(SetCall(s, s.tasks[t].resumed.value.0, status, output), d, r)
    ensures s.tasks[t].resumed.None? ==> forall d :: !Waiting(s, d, r)
  {
    if s.tasks[t].resumed.Some? {
      var c := s.tasks[t].resumed.value.0;
      assert CallOf(s, c, r);
      OnlyOthersWait(s, r, c, status, output);
    }
  }

  lemma NoTasksLeft(s: State, t: TaskId, r: RunId)
    requires OneTask(s, r) && InFlight(s, t, r)
    ensures forall u :: !InFlight(EndTask(s, t), u, r)
  {
    forall u ensures !InFlight(EndTask(s, t), u, r) {
      assert InFlight(s, u, r) ==> u == t;
    }
  }

  /** Ending the only task of a run changes nothing else about it. */
  lemma EndTaskKeeps(s: State, t: TaskId, r: RunId)
    requires r in s.runs && s.runs[r].output in s.messages
    requires LogAgrees(s, r) && CallsCoordinated(s, r) && OneTask(s, r) && InFlight(s, t, r)
    requires s.runs[r].status == Running ==> exists c :: Waiting(s, c, r)
    ensures RunOk(EndTask(s, t), r)
  {
    NoTasksLeft(s, t, r);
    var s' := EndTask(s, t);
    assert forall c :: Waiting(s', c, r) <==> Waiting(s, c, r);
    if s.runs[r].status == RequiresAction || s.runs[r].status == Running {
      var c :| Waiting(s, c, r);
      assert Waiting(s', c, r);
    }
  }

  // ----- a task leaves its stream

  /** `a` is `s` after the resumed call, if any, was given its final status and logged. */
  ghost predicate Settled(s: State, a: State, t: TaskId, r: RunId) {
    && a.runs == s.runs && a.messages == s.messages && a.tasks == s.tasks
    && (forall d :: !Waiting(a, d, r))
  }

  lemma CallDoneSettles(s: State, t: TaskId, r: RunId)
    requires Inv(s) && InFlight(s, t, r)
    ensures var task := s.tasks[t];
            var a := if task.resumed.Some? then CallDone(s, r, task.resumed.value.0, task.resumed.value.1) else s;
            Settled(s, a, t, r) && LogAgrees(a, r)
  {
    var task := s.tasks[t];
    if task.resumed.Some? {
      var (c, action) := task.resumed.value;
      SettledCall(s, t, r, CallCompleted, Some(action));
      var b := SetCall(s, c, CallCompleted, Some(action));
      assert LogAgrees(b, r);
      QuietAppend(b, r, ToolCallCompleted(c));
      assert forall d :: Waiting(CallDone(s, r, c, action), d, r) <==> Waiting(b, d, r);
    } else {
      SettledCall(s, t, r, CallCompleted, None);
    }
  }

  lemma CallBrokenSettles(s: State, t: TaskId, r: RunId)
    requires Inv(s) && InFlight(s, t, r)
    ensures var task := s.tasks[t];
            var a := if task.resumed.Some? then CallBroken(s, r, task.resumed.value.0) else s;
            Settled(s, a, t, r) && LogAgrees(a, r)
  {
    var task := s.tasks[t];
    if task.resumed.Some? {
      var c := task.resumed.value.0;
      SettledCall(s, t, r, CallFailed, None);
      var b := SetCall(s, c, CallFailed, None);
      assert LogAgrees(b, r);
      QuietAppend(b, r, ToolCallFailed(c));
      assert forall d :: Waiting(CallBroken(s, r, c), d, r) <==> Waiting(b, d, r);
    } else {
      SettledCall(s, t, r, CallFailed, None);
    }
  }

  /** After its call is settled and its run closed, a task can go. */
  lemma Close(s: State, a: State, closed: State, t: TaskId, r: RunId)
    requires Settled(s, a, t, r) && OneTask(s, r) && InFlight(s, t, r)
    requires closed.tasks == a.tasks && closed.toolCalls == a.toolCalls
    requires r in closed.runs && closed.runs[r].output in closed.messages
    requires !IsActive(closed.runs[r].status) && LogAgrees(closed, r)
    ensures RunOk(EndTask(closed, t), r)
  {
    hide LogAgrees;
    assert forall u :: InFlight(closed, u, r) <==> InFlight(s, u, r);
    NoTasksLeft(closed, t, r);
    assert forall d :: Waiting(EndTask(closed, t), d, r) <==> Waiting(a, d, r);
    LogAgreesAfterEnd(closed, t, r);
    OverIsOk(EndTask(closed, t), r);
  }

  lemma LogAgreesAfterEnd(s: State, t: TaskId, r: RunId)
    requires r in s.runs && s.runs[r].output in s.messages && LogAgrees(s, r)
    ensures LogAgrees(EndTask(s, t), r)
  {}

  lemma TaskFacts(s: State, t: TaskId, r: RunId)
    requires Inv(s) && InFlight(s, t, r)
    ensures WellFormed(s) && r in s.runs && OneTask(s, r)
    ensures s.tasks[t].resumed.Some? ==> CallOf(s, s.tasks[t].resumed.value.0, r)
    ensures s.runs[r].status == Running || s.runs[r].status == Cancelled
    ensures s.tasks[t].since <= |Log(s, r)| && s.tasks[t].buffer == Deltas(Log(s, r)[s.tasks[t].since..])
  {}

  lemma TouchedFacts(s: State, s': State, r: RunId)
    requires WellFormed(s) && r in s.runs && Touches(s, s', r)
    ensures WellFormed(s') && r in s'.runs && s'.runs[r].output == s.runs[r].output
  {}

  /** The stream ended by itself: the run is completed with the text logged since the task began. */
  lemma StreamEndKeepsInv(s: State, t: TaskId, r: RunId)
    requires Inv(s) && InFlight(s, t, r)
    ensures var s' := Ended(s, t, false);
            && Inv(s') && NoRevival(s, s')
            && s'.runs[r] == s.runs[r].(status := Completed)
            && s.tasks[t].since <= |Log(s, r)|
            && s'.messages[s.runs[r].output].content == Deltas(Log(s, r)[s.tasks[t].since..])
  {
    hide CallDone, Finalized, Touches, Inv, RunOk, LogAgrees, WellFormed, OneTask, NoRevival;
    TaskFacts(s, t, r);
    var task := s.tasks[t];
    var a := if task.resumed.Some? then CallDone(s, r, task.resumed.value.0, task.resumed.value.1) else s;
    NothingTouches(s, r);
    EndedTouches(s, s, r, t, false);
    DoneTouches(s, t, r);
    TouchedFacts(s, a, r);
    CallDoneSettles(s, t, r);
    FinalizedAgrees(a, r, task.buffer);
    Close(s, a, Finalized(a, r, task.buffer), t, r);
    Confined(s, Ended(s, t, false), r);
  }

  /** A task stopped because its run was cancelled. */
  lemma StopKeepsInv(s: State, t: TaskId, r: RunId)
    requires Inv(s) && InFlight(s, t, r) && s.runs[r].status == Cancelled
    ensures var s' := Ended(s, t, true); Inv(s') && NoRevival(s, s') && s'.runs == s.runs
  {
    hide CallDone, Touches, Inv, RunOk, LogAgrees, WellFormed, OneTask, NoRevival;
    TaskFacts(s, t, r);
    var task := s.tasks[t];
    var a := if task.resumed.Some? then CallDone(s, r, task.resumed.value.0, task.resumed.value.1) else s;
    NothingTouches(s, r);
    EndedTouches(s, s, r, t, true);
    DoneTouches(s, t, r);
    TouchedFacts(s, a, r);
    CallDoneSettles(s, t, r);
    Close(s, a, a, t, r);
    Confined(s, Ended(s, t, true), r);
  }

  lemma BrokenCallTouches(s: State, t: TaskId, r: RunId)
    requires Inv(s) && InFlight(s, t, r)
    ensures var task := s.tasks[t];
            Touches(s, if task.resumed.Some? then CallBroken(s, r, task.resumed.value.0) else s, r)
  {
    var task := s.tasks[t];
    NothingTouches(s, r);
    if task.resumed.Some? {
      var c := task.resumed.value.0;
      ThenCall(s, s, r, c, CallFailed, None);
      ThenAppend(s, SetCall(s, c, CallFailed, None), r, ToolCallFailed(c));
    }
  }

  lemma RunOkParts(s: State, r: RunId)
    requires Inv(s) && r in s.runs
    ensures s.runs[r].output in s.messages && LogAgrees(s, r) && CallsCoordinated(s, r)
  {}

  /** The stream failed: `start` fails the run, `resume` fails call and run, unless the exception was
      an ApiError, which leaves the run running and its call waiting, without a task. */
  lemma StreamFailureKeepsInv(s: State, t: TaskId, r: RunId, apiError: bool, why: string)
    requires Inv(s) && InFlight(s, t, r)
    ensures var s' := Broken(s, t, apiError, why);
            && Inv(s') && NoRevival(s, s')
            && (if s.tasks[t].resumed.Some? && apiError then s' == EndTask(s, t)
                else r in s'.runs && s'.runs[r] == s.runs[r].(status := Failed))
  {
    hide CallBroken, FailedRun, Touches, Inv, RunOk, LogAgrees, WellFormed, OneTask, CallsCoordinated, NoRevival;
    TaskFacts(s, t, r);
    var task := s.tasks[t];
    NothingTouches(s, r);
    BrokenTouches(s, s, r, t, apiError, why);
    if task.resumed.Some? && apiError {
      RunOkParts(s, r);
      if s.runs[r].status == Running {
        ResumedHasItsCall(s, t, r);
      }
      EndTaskKeeps(s, t, r);
    } else {
      var a := if task.resumed.Some? then CallBroken(s, r, task.resumed.value.0) else s;
      BrokenCallTouches(s, t, r);
      TouchedFacts(s, a, r);
      CallBrokenSettles(s, t, r);
      FailedAgrees(a, r, why);
      Close(s, a, FailedRun(a, r, why), t, r);
    }
    Confined(s, Broken(s, t, apiError, why), r);
  }

  lemma DoneTouches(s: State, t: TaskId, r: RunId)
    requires Inv(s) && InFlight(s, t, r)
    ensures var task := s.tasks[t];
            var a := if task.resumed.Some? then CallDone(s, r, task.resumed.value.0, task.resumed.value.1) else s;
            Touches(s, a, r)
  {
    var task := s.tasks[t];
    NothingTouches(s, r);
    if task.resumed.Some? {
      var (c, action) := task.resumed.value;
      ThenCall(s, s, r, c, CallCompleted, Some(action));
      ThenAppend(s, SetCall(s, c, CallCompleted, Some(action)), r, ToolCallCompleted(c));
    }
  }

  // ----- chunks

  lemma FreshCallWaits(s: State, r: RunId, call: ToolCallId, allowed: seq<string>)
    requires call !in s.toolCalls && forall c :: !Waiting(s, c, r)
    ensures forall c :: Waiting(Interrupted(s, r, call, allowed), c, r) <==> c == call
  {
    forall c ensures Waiting(Interrupted(s, r, call, allowed), c, r) <==> c == call {
      assert !Waiting(s, c, r);
    }
  }

  lemma InterruptedAgrees(s: State, r: RunId, call: ToolCallId, allowed: seq<string>)
    requires WellFormed(s) && r in s.runs && LogAgrees(s, r) && s.runs[r].status == Running
    ensures var s' := Interrupted(s, r, call, allowed);
            && r in s'.runs && s'.runs[r] == s.runs[r].(status := RequiresAction) && s'.runs[r].output in s'.messages
            && LogAgrees(s', r) && s'.tasks == s.tasks
  {
    var log := Log(s, r) + [ToolCallCreated(call)];
    var s' := Interrupted(s, r, call, allowed);
    assert Log(s', r) == log + [RunUpdated(Known(RequiresAction))] + [ToolCallWaitingHuman(call)];
    assert [RunUpdated(Known(RequiresAction))][0] == RunUpdated(Known(RequiresAction));
    StatusOfAppend(log, RunUpdated(Known(RequiresAction)));
    StatusOfAppend(log + [RunUpdated(Known(RequiresAction))], ToolCallWaitingHuman(call));
  }

  /** An interrupt seen by a started task: the run waits for exactly this call. */
  lemma InterruptKeepsInv(s: State, t: TaskId, r: RunId, call: ToolCallId, allowed: seq<string>)
    requires Inv(s) && InFlight(s, t, r) && s.runs[r].status == Running && s.tasks[t].resumed.None?
    requires call !in s.toolCalls
    ensures var s' := Ended(Interrupted(s, r, call, allowed), t, true);
            Inv(s') && NoRevival(s, s') && s'.runs[r].status == RequiresAction && Waiting(s', call, r)
  {
    hide Touches, Inv, RunOk, LogAgrees, WellFormed, OneTask, NoRevival, CallsCoordinated, Interrupted;
    TaskFacts(s, t, r);
    RunOkParts(s, r);
    StartedHasNoCall(s, t, r);
    InterruptedTouches(s, r, call, allowed);
    var a := Interrupted(s, r, call, allowed);
    InterruptedAgrees(s, r, call, allowed);
    FreshCallWaits(s, r, call, allowed);
    EndedTouches(s, a, r, t, true);
    SameTasksOne(s, a, r);
    OneWaits(a, r, call);
    EndTaskKeeps(a, t, r);
    assert Waiting(a, call, r);
    Confined(s, EndTask(a, t), r);
  }

  lemma StartedHasNoCall(s: State, t: TaskId, r: RunId)
    requires Inv(s) && InFlight(s, t, r) && s.runs[r].status == Running && s.tasks[t].resumed.None?
    ensures forall c :: !Waiting(s, c, r)
  {
    assert HoldsItsCall(s, s.tasks[t]);
  }

  lemma ResumedHasItsCall(s: State, t: TaskId, r: RunId)
    requires Inv(s) && InFlight(s, t, r) && s.runs[r].status == Running && s.tasks[t].resumed.Some?
    ensures Waiting(s, s.tasks[t].resumed.value.0, r)
  {
    assert HoldsItsCall(s, s.tasks[t]);
  }

  lemma SameTasksOne(s: State, a: State, r: RunId)
    requires a.tasks == s.tasks && OneTask(s, r)
    ensures OneTask(a, r)
  {
    assert forall u :: InFlight(a, u, r) <==> InFlight(s, u, r);
  }

  lemma OneWaits(s: State, r: RunId, call: ToolCallId)
    requires r in s.runs && s.runs[r].status == RequiresAction
    requires forall c :: Waiting(s, c, r) <==> c == call
    ensures CallsCoordinated(s, r)
  {
    assert Waiting(s, call, r);
  }

  /** A quiet event logged by the run's own task, whose buffer may grow by the same text. */
  lemma LoggedKeepsInv(s: State, t: TaskId, r: RunId, e: Event)
    requires Inv(s) && InFlight(s, t, r) && s.runs[r].status == Running && !IsStatusEvent(e)
    ensures var buffer := s.tasks[t].buffer + if e.MessageDelta? then e.text else "";
            var s' := Append(s.(tasks := s.tasks[t := s.tasks[t].(buffer := buffer)]), r, e);
            Inv(s') && NoRevival(s, s') && s'.runs == s.runs
  {
    var task := s.tasks[t];
    var buffer := task.buffer + if e.MessageDelta? then e.text else "";
    var b := s.(tasks := s.tasks[t := task.(buffer := buffer)]);
    var s' := Append(b, r, e);
    TaskFacts(s, t, r);
    RunOkParts(s, r);
    SetTaskTouches(s, r, t, task.(buffer := buffer));
    ThenAppend(s, b, r, e);
    LoggedAgrees(s, t, r, e, buffer);
    LoggedCoordinated(s, t, r, e, buffer);
    DeltasOfAppend(Log(s, r), task.since, e);
    assert s'.tasks[t].since == task.since && Log(s', r) == Log(s, r) + [e];
    LoggedBuffers(s, s', t, r);
    assert InFlight(s', t, r);
    Confined(s, s', r);
  }

  lemma LoggedAgrees(s: State, t: TaskId, r: RunId, e: Event, buffer: string)
    requires r in s.runs && s.runs[r].output in s.messages && LogAgrees(s, r)
    requires t in s.tasks && !IsStatusEvent(e) && s.runs[r].status != Completed
    ensures LogAgrees(Append(s.(tasks := s.tasks[t := s.tasks[t].(buffer := buffer)]), r, e), r)
  {
    var b := s.(tasks := s.tasks[t := s.tasks[t].(buffer := buffer)]);
    assert LogAgrees(b, r);
    QuietAppend(b, r, e);
  }

  lemma LoggedCoordinated(s: State, t: TaskId, r: RunId, e: Event, buffer: string)
    requires WellFormed(s) && InFlight(s, t, r) && RunOk(s, r)
    ensures var s' := Append(s.(tasks := s.tasks[t := s.tasks[t].(buffer := buffer)]), r, e);
            CallsCoordinated(s', r) && TasksCoordinated(s', r)
  {
    var s' := Append(s.(tasks := s.tasks[t := s.tasks[t].(buffer := buffer)]), r, e);
    assert forall c :: Waiting(s', c, r) <==> Waiting(s, c, r);
    assert forall u :: InFlight(s', u, r) <==> InFlight(s, u, r);
    hide Waiting, LogAgrees, Buffered, Append;
    SameCalls(s, s', r);
    forall u | InFlight(s', u, r) ensures s'.tasks[u].resumed == s.tasks[u].resumed {}
    forall u | InFlight(s', u, r) && s'.runs[r].status == Running ensures HoldsItsCall(s', s'.tasks[u]) {
      assert HoldsItsCall(s, s.tasks[u]);
    }
  }

  lemma LoggedBuffers(s: State, s': State, t: TaskId, r: RunId)
    requires OneTask(s, r) && InFlight(s, t, r) && t in s'.tasks
    requires forall u :: InFlight(s', u, r) ==> InFlight(s, u, r)
    requires s'.tasks[t].since <= |Log(s', r)| && s'.tasks[t].buffer == Deltas(Log(s', r)[s'.tasks[t].since..])
    ensures Buffered(s', r)
  {
    forall u | InFlight(s', u, r) ensures u == t {
      assert InFlight(s, u, r);
    }
  }

  // ----- requests

  lemma NewRunKeepsInv(s: State, r: RunId, thread: ThreadId, output: MessageId)
    requires Inv(s) && r !in s.runs && output !in s.messages && FindActive(s, thread).None?
    ensures var s' := s.(runs := s.runs[r := Run(thread, output, Queued)],
                         messages := s.messages[output := Message(Streaming, "")]);
            Inv(s') && NoRevival(s, s')
  {
    var s' := s.(runs := s.runs[r := Run(thread, output, Queued)],
                 messages := s.messages[output := Message(Streaming, "")]);
    NewRunFrame(s, s', r);
    NewRunOk(s, s', r);
    forall q, th | ActiveIn(s', q, th) ensures ActiveIn(s, q, th) || (q == r && th == thread) {}
    hide RunOk, WellFormed, Same;
    forall q | q in s'.runs ensures RunOk(s', q) {
      if q != r {
        SameKeepsRun(s, s', q);
      }
    }
  }

  lemma NewRunFrame(s: State, s': State, r: RunId)
    requires WellFormed(s) && r !in s.runs && r in s'.runs && s'.runs[r].output !in s.messages
    requires s'.runs == s.runs[r := s'.runs[r]]
             && s'.messages == s.messages[s'.runs[r].output := Message(Streaming, "")]
    requires s'.toolCalls == s.toolCalls && s'.tasks == s.tasks && s'.log == s.log
    ensures WellFormed(s') && forall q :: q in s.runs ==> Same(s, s', q)
  {}

  lemma NewRunOk(s: State, s': State, r: RunId)
    requires WellFormed(s) && WellFormed(s') && r !in s.runs && r in s'.runs && s'.runs[r].status == Queued
    requires s'.toolCalls == s.toolCalls && s'.tasks == s.tasks && s'.log == s.log
    requires s'.messages[s'.runs[r].output].status == Streaming
    ensures RunOk(s', r)
  {
    forall c ensures !Waiting(s', c, r) {}
    forall t ensures !InFlight(s', t, r) {}
  }

  lemma StartedTouches(s: State, t: TaskId, r: RunId)
    requires WellFormed(s) && r in s.runs && t !in s.tasks
    ensures Touches(s, Started(s, t, r), r)
  {
    hide Append, SetStatus, Same;
    NothingTouches(s, r);
    ThenAppend(s, s, r, RunCreated(s.runs[r].status));
    ThenAppend(s, Append(s, r, RunCreated(s.runs[r].status)), r, MessageCreated);
    var a := Append(Append(s, r, RunCreated(s.runs[r].status)), r, MessageCreated);
    ThenStatus(s, a, r, Running);
    ThenAppend(s, SetStatus(a, r, Running), r, RunUpdated(Known(Running)));
    var b := Append(SetStatus(a, r, Running), r, RunUpdated(Known(Running)));
    BeforeStart(s, r);
    ThenTask(s, b, r, t, Task(r, None, "", |Log(b, r)|));
  }

  lemma BeforeStart(s: State, r: RunId)
    requires r in s.runs
    ensures var a := Append(Append(s, r, RunCreated(s.runs[r].status)), r, MessageCreated);
            Append(SetStatus(a, r, Running), r, RunUpdated(Known(Running))).tasks == s.tasks
    ensures Append(SetStatus(s, r, Running), r, RunUpdated(Known(Running))).tasks == s.tasks
  {}

  lemma ThenTask(s: State, a: State, r: RunId, t: TaskId, task: Task)
    requires WellFormed(s) && r in s.runs && Touches(s, a, r)
    requires (t in a.tasks ==> a.tasks[t].run == r) && task.run == r
    ensures Touches(s, a.(tasks := a.tasks[t := task]), r)
  {
    hide Same;
    SetTaskTouches(a, r, t, task);
    TouchesTwice(s, a, a.(tasks := a.tasks[t := task]), r);
  }

  lemma StartedFacts(s: State, t: TaskId, r: RunId)
    requires WellFormed(s) && r in s.runs
    ensures var s' := Started(s, t, r);
            && r in s'.runs && s'.runs[r] == s.runs[r].(status := Running)
            && s'.messages == s.messages && s'.toolCalls == s.toolCalls
            && Log(s', r) ==
                Log(s, r) + [RunCreated(s.runs[r].status)] + [MessageCreated] + [RunUpdated(Known(Running))]
            && s'.tasks == s.tasks[t := Task(r, None, "", |Log(s', r)|)]
            && StatusAfter(Log(s', r)) == Known(Running)
  {
    var log := Log(s, r) + [RunCreated(s.runs[r].status)] + [MessageCreated];
    StatusOfAppend(log, RunUpdated(Known(Running)));
  }

  lemma StartKeepsInv(s: State, t: TaskId, r: RunId)
    requires Inv(s) && r in s.runs && s.runs[r].status == Queued && t !in s.tasks
    ensures var s' := Started(s, t, r); Inv(s') && NoRevival(s, s') && s'.runs[r].status == Running
  {
    hide Touches, Inv, RunOk, NoRevival, Started;
    QueuedFacts(s, r);
    StartedTouches(s, t, r);
    StartedFacts(s, t, r);
    var s' := Started(s, t, r);
    NewTaskOk(s, s', t, r);
    Confined(s, s', r);
  }

  lemma QueuedFacts(s: State, r: RunId)
    requires Inv(s) && r in s.runs && s.runs[r].status == Queued
    ensures WellFormed(s) && s.messages[s.runs[r].output].status == Streaming
    ensures forall c :: !Waiting(s, c, r)
    ensures forall u :: !InFlight(s, u, r)
  {}

  /** A run with its first task. */
  lemma NewTaskOk(s: State, s': State, t: TaskId, r: RunId)
    requires r in s'.runs && s'.runs[r].status == Running && s'.runs[r].output in s'.messages
    requires s'.messages[s'.runs[r].output].status == Streaming && StatusAfter(Log(s', r)) == Known(Running)
    requires s'.toolCalls == s.toolCalls && s'.tasks == s.tasks[t := Task(r, None, "", |Log(s', r)|)]
    requires forall c :: !Waiting(s, c, r)
    requires forall u :: !InFlight(s, u, r)
    ensures RunOk(s', r)
  {
    assert forall c :: !Waiting(s', c, r) by {
      assert forall c :: Waiting(s', c, r) <==> Waiting(s, c, r);
    }
    assert forall u :: InFlight(s', u, r) <==> u == t by {
      assert forall u :: u != t ==> (InFlight(s', u, r) <==> InFlight(s, u, r));
    }
    assert InFlight(s', t, r);
    var log := Log(s', r);
    assert Deltas(log[|log|..]) == "";
  }

  lemma ResumedTouches(s: State, t: TaskId, r: RunId, call: ToolCallId, action: string)
    requires WellFormed(s) && r in s.runs && t !in s.tasks
    ensures Touches(s, Resumed(s, t, r, call, action), r)
  {
    hide Append, SetStatus, Same;
    NothingTouches(s, r);
    ThenStatus(s, s, r, Running);
    ThenAppend(s, SetStatus(s, r, Running), r, RunUpdated(Known(Running)));
    var a := Append(SetStatus(s, r, Running), r, RunUpdated(Known(Running)));
    BeforeStart(s, r);
    ThenTask(s, a, r, t, Task(r, Some((call, action)), "", |Log(a, r)|));
  }

  lemma ResumeKeepsInv(s: State, t: TaskId, r: RunId, call: ToolCallId, action: string)
    requires Inv(s) && r in s.runs && s.runs[r].status == RequiresAction && t !in s.tasks && Waiting(s, call, r)
    ensures var s' := Resumed(s, t, r, call, action);
            && Inv(s') && NoRevival(s, s') && InFlight(s', t, r) && s'.tasks[t].resumed == Some((call, action))
            && s'.runs[r] == s.runs[r].(status := Running) && Waiting(s', call, r)
  {
    var s' := Resumed(s, t, r, call, action);
    ResumedTouches(s, t, r, call, action);
    StatusOfAppend(Log(s, r), RunUpdated(Known(Running)));
    ResumedTaskOk(s, s', t, r, call, action);
    hide Touches, Inv, RunOk, NoRevival, Resumed;
    Confined(s, s', r);
  }

  lemma ResumedTaskOk(s: State, s': State, t: TaskId, r: RunId, call: ToolCallId, action: string)
    requires Inv(s) && r in s.runs && s.runs[r].status == RequiresAction && Waiting(s, call, r)
    requires s'.runs == s.runs[r := s.runs[r].(status := Running)] && s'.messages == s.messages
    requires StatusAfter(Log(s', r)) == Known(Running)
    requires s'.toolCalls == s.toolCalls && s'.tasks == s.tasks[t := Task(r, Some((call, action)), "", |Log(s', r)|)]
    ensures RunOk(s', r)
  {
    assert forall c :: Waiting(s', c, r) <==> Waiting(s, c, r);
    assert forall u :: !InFlight(s, u, r);
    assert forall u :: InFlight(s', u, r) <==> u == t by {
      assert forall u :: u != t ==> (InFlight(s', u, r) <==> InFlight(s, u, r));
    }
    assert CallsCoordinated(s', r);
    assert Waiting(s', call, r);
    var log := Log(s', r);
    assert Deltas(log[|log|..]) == "";
  }

  lemma CancelKeepsInv(s: State, r: RunId)
    requires Inv(s) && r in s.runs && (s.runs[r].status == Queued || s.runs[r].status == Running)
    ensures var s' := CancelledRun(s, r, FindWaiting(s, r));
            Inv(s') && NoRevival(s, s') && s'.runs[r].status == Cancelled
  {
    hide Touches, RunOk, NoRevival, CancelledRun, CallWithdrawn, LogAgrees;
    var waiting := FindWaiting(s, r);
    CallWithdrawnTouches(s, r, waiting);
    TouchedFacts(s, CallWithdrawn(s, r, waiting), r);
    CancelledRunTouches(s, r, waiting);
    CancelledAgrees(s, r, waiting);
    var s' := CancelledRun(s, r, waiting);
    WithdrawnWait(s, r, waiting);
    assert forall c :: Waiting(s', c, r) <==> Waiting(CallWithdrawn(s, r, waiting), c, r);
    CancelledOk(s, s', r, Log(CallWithdrawn(s, r, waiting), r));
    Confined(s, s', r);
  }

  lemma WithdrawnWait(s: State, r: RunId, waiting: Option<ToolCallId>)
    requires Inv(s) && r in s.runs && waiting == FindWaiting(s, r)
    ensures forall c :: !Waiting(CallWithdrawn(s, r, waiting), c, r)
    ensures Log(s, r) <= Log(CallWithdrawn(s, r, waiting), r)
    ensures Log(CallWithdrawn(s, r, waiting), r) ==
            Log(s, r) + if waiting.Some? then [ToolCallUpdated(waiting.value)] else []
    ensures var a := CallWithdrawn(s, r, waiting);
            forall c :: (CallOf(a, c, r) <==> CallOf(s, c, r))
  {
    RunOkParts(s, r);
    if waiting.Some? {
      OnlyOthersWait(s, r, waiting.value, CallCancelled, None);
      var b := SetCall(s, waiting.value, CallCancelled, None);
      assert forall c :: Waiting(Append(b, r, ToolCallUpdated(waiting.value)), c, r) <==> Waiting(b, c, r);
    }
  }

  /** A cancelled run may keep its task, whose buffer still matches the log. */
  lemma CancelledOk(s: State, s': State, r: RunId, withdrawn: seq<Event>)
    requires Inv(s) && r in s.runs && r in s'.runs && s'.runs[r].status == Cancelled
    requires s'.runs[r].output in s'.messages && LogAgrees(s', r) && s'.tasks == s.tasks
    requires forall c :: !Waiting(s', c, r)
    requires forall c :: CallOf(s', c, r) <==> CallOf(s, c, r)
    requires withdrawn == Log(s, r) || exists c :: withdrawn == Log(s, r) + [ToolCallUpdated(c)]
    requires Log(s', r) == withdrawn + [MessageWasCancelled] + [RunCancelled]
    ensures RunOk(s', r)
  {
    hide LogAgrees;
    assert forall u :: InFlight(s', u, r) <==> InFlight(s, u, r);
    forall u | InFlight(s', u, r)
      ensures s'.tasks[u].since <= |Log(s', r)| && s'.tasks[u].buffer == Deltas(Log(s', r)[s'.tasks[u].since..])
    {
      var k := s.tasks[u].since;
      if withdrawn != Log(s, r) {
        var c :| withdrawn == Log(s, r) + [ToolCallUpdated(c)];
        DeltasOfAppend(Log(s, r), k, ToolCallUpdated(c));
      }
      DeltasOfAppend(withdrawn, k, MessageWasCancelled);
      DeltasOfAppend(withdrawn + [MessageWasCancelled], k, RunCancelled);
    }
  }
}
