/** What every reachable state of the run machine satisfies. */
module RunProofs {
  import opened RunSpec

  // ----- logs

  predicate IsStatusEvent(e: Event) {
    e.RunCreated? || e.RunUpdated? || e.RunCompleted? || e.RunFailed? || e.RunCancelled?
  }

  lemma StatusOfAppend(log: seq<Event>, e: Event)
    ensures StatusAfter(log + [e]) == if IsStatusEvent(e) then StatusAfter([e]) else StatusAfter(log)
  {
    assert (log + [e])[..|log|] == log;
    assert [e][..0] == [];
  }

  lemma DeltasOfAppend(log: seq<Event>, k: nat, e: Event)
    requires k <= |log|
    ensures Deltas((log + [e])[k..]) == Deltas(log[k..]) + if e.MessageDelta? then e.text else ""
  {
    var tail := (log + [e])[k..];
    assert tail == log[k..] + [e];
    assert tail[..|tail| - 1] == log[k..];
  }

  // ----- frames

  /** Nothing about run r differs. */
  ghost predicate Same(s: State, s': State, r: RunId)
    requires WellFormed(s) && r in s.runs
  {
    && r in s'.runs && s'.runs[r] == s.runs[r]
    && s.runs[r].output in s'.messages && s'.messages[s.runs[r].output] == s.messages[s.runs[r].output]
    && Log(s', r) == Log(s, r)
    && (forall t :: InFlight(s', t, r) <==> InFlight(s, t, r))
    && (forall t :: InFlight(s, t, r) ==> s'.tasks[t] == s.tasks[t])
    && (forall c :: CallOf(s', c, r) <==> CallOf(s, c, r))
    && (forall c :: CallOf(s, c, r) ==> s'.toolCalls[c] == s.toolCalls[c])
  }

  /** A change confined to one run. */
  ghost predicate Touches(s: State, s': State, r: RunId)
    requires WellFormed(s) && r in s.runs
  {
    && WellFormed(s') && s'.runs.Keys == s.runs.Keys
    && s'.runs[r].thread == s.runs[r].thread && s'.runs[r].output == s.runs[r].output
    && forall q :: q in s.runs && q != r ==> Same(s, s', q)
  }

  lemma TouchesTwice(a: State, b: State, c: State, r: RunId)
    requires WellFormed(a) && r in a.runs && Touches(a, b, r) && Touches(b, c, r)
    ensures Touches(a, c, r)
  {
    forall q | q in a.runs && q != r ensures Same(a, c, q) {
      assert Same(a, b, q) && Same(b, c, q);
    }
  }

  lemma AppendTouches(s: State, r: RunId, e: Event)
    requires WellFormed(s) && r in s.runs
    ensures Touches(s, Append(s, r, e), r)
  {}

  lemma SetStatusTouches(s: State, r: RunId, status: RunStatus)
    requires WellFormed(s) && r in s.runs
    ensures Touches(s, SetStatus(s, r, status), r)
  {}

  lemma SetMessageTouches(s: State, r: RunId, status: MessageStatus, content: Option<string>)
    requires WellFormed(s) && r in s.runs
    ensures Touches(s, SetMessage(s, s.runs[r].output, status, content), r)
  {}

  lemma SetCallTouches(s: State, r: RunId, c: ToolCallId, status: ToolCallStatus, output: Option<string>)
    requires WellFormed(s) && r in s.runs && CallOf(s, c, r)
    ensures Touches(s, SetCall(s, c, status, output), r)
  {}

  lemma NewCallTouches(s: State, r: RunId, c: ToolCallId, call: ToolCall)
    requires WellFormed(s) && r in s.runs && c !in s.toolCalls && call.run == r
    ensures Touches(s, s.(toolCalls := s.toolCalls[c := call]), r)
  {}

  lemma SetTaskTouches(s: State, r: RunId, t: TaskId, task: Task)
    requires WellFormed(s) && r in s.runs && (t in s.tasks ==> s.tasks[t].run == r) && task.run == r
    ensures Touches(s, s.(tasks := s.tasks[t := task]), r)
  {}

  lemma EndTaskTouches(s: State, r: RunId, t: TaskId)
    requires WellFormed(s) && r in s.runs && InFlight(s, t, r)
    ensures Touches(s, EndTask(s, t), r)
  {}

  lemma NothingTouches(s: State, r: RunId)
    requires WellFormed(s) && r in s.runs
    ensures Touches(s, s, r)
  {}

  // The same, after an earlier change of the same run.

  lemma ThenAppend(s: State, a: State, r: RunId, e: Event)
    requires WellFormed(s) && r in s.runs && Touches(s, a, r)
    ensures Touches(s, Append(a, r, e), r)
  {
    hide Append, Same;
    AppendTouches(a, r, e);
    TouchesTwice(s, a, Append(a, r, e), r);
  }

  lemma ThenStatus(s: State, a: State, r: RunId, status: RunStatus)
    requires WellFormed(s) && r in s.runs && Touches(s, a, r)
    ensures Touches(s, SetStatus(a, r, status), r)
  {
    hide SetStatus, Same;
    SetStatusTouches(a, r, status);
    TouchesTwice(s, a, SetStatus(a, r, status), r);
  }

  lemma ThenMessage(s: State, a: State, r: RunId, status: MessageStatus, content: Option<string>)
    requires WellFormed(s) && r in s.runs && Touches(s, a, r)
    ensures Touches(s, SetMessage(a, s.runs[r].output, status, content), r)
  {
    hide SetMessage, Same;
    SetMessageTouches(a, r, status, content);
    TouchesTwice(s, a, SetMessage(a, s.runs[r].output, status, content), r);
  }

  lemma ThenCall(s: State, a: State, r: RunId, c: ToolCallId, status: ToolCallStatus, output: Option<string>)
    requires WellFormed(s) && r in s.runs && Touches(s, a, r) && CallOf(a, c, r)
    ensures Touches(s, SetCall(a, c, status, output), r)
  {
    hide SetCall, Same;
    SetCallTouches(a, r, c, status, output);
    TouchesTwice(s, a, SetCall(a, c, status, output), r);
  }

  lemma ThenEndTask(s: State, a: State, r: RunId, t: TaskId)
    requires WellFormed(s) && r in s.runs && Touches(s, a, r) && InFlight(a, t, r)
    ensures Touches(s, EndTask(a, t), r)
  {
    hide EndTask, Same;
    EndTaskTouches(a, r, t);
    TouchesTwice(s, a, EndTask(a, t), r);
  }

  // ----- changes the projector and the executor make

  lemma FinalizedTouches(s: State, a: State, r: RunId, reply: string)
    requires WellFormed(s) && r in s.runs && Touches(s, a, r)
    ensures Touches(s, Finalized(a, r, reply), r)
  {
    hide Append, SetStatus, SetMessage, Same;
    ThenMessage(s, a, r, MessageDone, Some(reply));
    var b := SetMessage(a, s.runs[r].output, MessageDone, Some(reply));
    ThenAppend(s, b, r, MessageCompleted(reply));
    var c := Append(b, r, MessageCompleted(reply));
    ThenStatus(s, c, r, Completed);
    ThenAppend(s, SetStatus(c, r, Completed), r, RunCompleted);
  }

  lemma FailedRunTouches(s: State, a: State, r: RunId, why: string)
    requires WellFormed(s) && r in s.runs && Touches(s, a, r)
    ensures Touches(s, FailedRun(a, r, why), r)
  {
    hide Append, SetStatus, SetMessage, Same, FailureText;
    ThenMessage(s, a, r, MessageError, Some(FailureText(why)));
    var b := SetMessage(a, s.runs[r].output, MessageError, Some(FailureText(why)));
    ThenAppend(s, b, r, MessageFailed);
    var c := Append(b, r, MessageFailed);
    ThenStatus(s, c, r, Failed);
    ThenAppend(s, SetStatus(c, r, Failed), r, RunFailed);
  }

  lemma CallWithdrawnTouches(s: State, r: RunId, waiting: Option<ToolCallId>)
    requires WellFormed(s) && r in s.runs && (waiting.Some? ==> CallOf(s, waiting.value, r))
    ensures Touches(s, CallWithdrawn(s, r, waiting), r)
  {
    hide Append, SetCall, Same;
    NothingTouches(s, r);
    if waiting.Some? {
      ThenCall(s, s, r, waiting.value, CallCancelled, None);
      ThenAppend(s, SetCall(s, waiting.value, CallCancelled, None), r, ToolCallUpdated(waiting.value));
    }
  }

  lemma CancelledRunTouches(s: State, r: RunId, waiting: Option<ToolCallId>)
    requires WellFormed(s) && r in s.runs && (waiting.Some? ==> CallOf(s, waiting.value, r))
    ensures Touches(s, CancelledRun(s, r, waiting), r)
  {
    hide Append, SetStatus, SetMessage, CallWithdrawn, Same;
    CallWithdrawnTouches(s, r, waiting);
    var a := CallWithdrawn(s, r, waiting);
    ThenStatus(s, a, r, Cancelled);
    var b := SetStatus(a, r, Cancelled);
    ThenMessage(s, b, r, MessageCancelled, None);
    var c := SetMessage(b, s.runs[r].output, MessageCancelled, None);
    ThenAppend(s, c, r, MessageWasCancelled);
    ThenAppend(s, Append(c, r, MessageWasCancelled), r, RunCancelled);
  }

  lemma InterruptedTouches(s: State, r: RunId, call: ToolCallId, allowed: seq<string>)
    requires WellFormed(s) && r in s.runs && call !in s.toolCalls
    ensures Touches(s, Interrupted(s, r, call, allowed), r)
  {
    hide Append, SetStatus, Same;
    NewCallTouches(s, r, call, ToolCall(r, WaitingHuman, allowed, None));
    var a := s.(toolCalls := s.toolCalls[call := ToolCall(r, WaitingHuman, allowed, None)]);
    ThenAppend(s, a, r, ToolCallCreated(call));
    var b := Append(a, r, ToolCallCreated(call));
    ThenStatus(s, b, r, RequiresAction);
    var c := SetStatus(b, r, RequiresAction);
    ThenAppend(s, c, r, RunUpdated(Known(RequiresAction)));
    ThenAppend(s, Append(c, r, RunUpdated(Known(RequiresAction))), r, ToolCallWaitingHuman(call));
  }

  lemma EndedTouches(s: State, a: State, r: RunId, t: TaskId, stopped: bool)
    requires WellFormed(s) && r in s.runs && Touches(s, a, r) && InFlight(a, t, r)
    requires a.tasks[t].resumed.Some? ==> CallOf(a, a.tasks[t].resumed.value.0, r)
    ensures Touches(s, Ended(a, t, stopped), r)
  {
    hide Append, SetCall, Finalized, Same;
    var task := a.tasks[t];
    var b := a;
    if task.resumed.Some? {
      var (call, action) := task.resumed.value;
      ThenCall(s, a, r, call, CallCompleted, Some(action));
      ThenAppend(s, SetCall(a, call, CallCompleted, Some(action)), r, ToolCallCompleted(call));
      b := CallDone(a, r, call, action);
      TasksKept(a, r, call, CallCompleted, Some(action), ToolCallCompleted(call));
    }
    if stopped {
      ThenEndTask(s, b, r, t);
    } else {
      FinalizedTouches(s, b, r, task.buffer);
      FinalizedTasks(b, r, task.buffer);
      ThenEndTask(s, Finalized(b, r, task.buffer), r, t);
    }
  }

  lemma TasksKept(s: State, r: RunId, c: ToolCallId, status: ToolCallStatus, output: Option<string>, e: Event)
    ensures Append(SetCall(s, c, status, output), r, e).tasks == s.tasks
    ensures Append(SetCall(s, c, status, output), r, e).runs == s.runs
  {}

  lemma FinalizedTasks(s: State, r: RunId, reply: string)
    requires r in s.runs
    ensures Finalized(s, r, reply).tasks == s.tasks
  {}

  lemma BrokenTouches(s: State, a: State, r: RunId, t: TaskId, apiError: bool, why: string)
    requires WellFormed(s) && r in s.runs && Touches(s, a, r) && InFlight(a, t, r)
    requires a.tasks[t].resumed.Some? ==> CallOf(a, a.tasks[t].resumed.value.0, r)
    ensures Touches(s, Broken(a, t, apiError, why), r)
  {
    hide Append, SetCall, FailedRun, Same;
    var task := a.tasks[t];
    if task.resumed.None? {
      FailedRunTouches(s, a, r, why);
      FailedTasks(a, r, why);
      ThenEndTask(s, FailedRun(a, r, why), r, t);
    } else if apiError {
      ThenEndTask(s, a, r, t);
    } else {
      var call := task.resumed.value.0;
      ThenCall(s, a, r, call, CallFailed, None);
      ThenAppend(s, SetCall(a, call, CallFailed, None), r, ToolCallFailed(call));
      TasksKept(a, r, call, CallFailed, None, ToolCallFailed(call));
      var b := CallBroken(a, r, call);
      FailedRunTouches(s, b, r, why);
      FailedTasks(b, r, why);
      ThenEndTask(s, FailedRun(b, r, why), r, t);
    }
  }

  lemma FailedTasks(s: State, r: RunId, why: string)
    requires r in s.runs
    ensures FailedRun(s, r, why).tasks == s.tasks
  {}

  // ----- one run

  lemma SameKeepsRun(s: State, s': State, r: RunId)
    requires WellFormed(s) && r in s.runs && RunOk(s, r) && Same(s, s', r)
    ensures RunOk(s', r)
  {
    forall c ensures Waiting(s', c, r) <==> Waiting(s, c, r) {
      assert CallOf(s', c, r) <==> CallOf(s, c, r);
    }
    SameCalls(s, s', r);
    SameTasks(s, s', r);
    SameCarried(s, s', r);
  }

  lemma SameCarried(s: State, s': State, r: RunId)
    requires r in s.runs && r in s'.runs && s'.runs[r] == s.runs[r] && Carried(s, r)
    requires forall t :: InFlight(s', t, r) <==> InFlight(s, t, r)
    requires forall c :: Waiting(s', c, r) <==> Waiting(s, c, r)
    ensures Carried(s', r)
  {
    hide Waiting, InFlight;
    if s.runs[r].status == Running {
      if t :| InFlight(s, t, r) {
        assert InFlight(s', t, r);
      } else {
        var c :| Waiting(s, c, r);
        assert Waiting(s', c, r);
      }
    }
  }

  lemma SameCalls(s: State, s': State, r: RunId)
    requires r in s.runs && r in s'.runs && s'.runs[r] == s.runs[r] && CallsCoordinated(s, r)
    requires forall c :: Waiting(s', c, r) <==> Waiting(s, c, r)
    ensures CallsCoordinated(s', r)
  {
    hide Waiting;
    if s.runs[r].status == RequiresAction {
      var c :| Waiting(s, c, r);
      assert Waiting(s', c, r);
    }
  }

  lemma SameTasks(s: State, s': State, r: RunId)
    requires WellFormed(s) && r in s.runs && TasksCoordinated(s, r) && Same(s, s', r)
    requires forall c :: Waiting(s', c, r) <==> Waiting(s, c, r)
    ensures TasksCoordinated(s', r)
  {
    hide Waiting, WellFormed, CallOf;
  }

  /** A step confined to one run keeps the invariant if it does so for that run. */
  lemma TouchedRunKeepsInv(s: State, s': State, r: RunId)
    requires Inv(s) && r in s.runs && Touches(s, s', r)
    requires IsActive(s'.runs[r].status) ==> IsActive(s.runs[r].status)
    requires RunOk(s', r)
    ensures Inv(s')
  {
    hide RunOk;
    forall q | q in s'.runs ensures RunOk(s', q) {
      if q != r {
        SameKeepsRun(s, s', q);
      }
    }
    forall q, thread | ActiveIn(s', q, thread) ensures ActiveIn(s, q, thread) {
      assert q != r ==> Same(s, s', q);
    }
  }
}
