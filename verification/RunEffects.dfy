/** What a step does to its run, as a caller can tell: the new status, exactly which events are added
    to the log, and whether a task still carries the run. */
module RunEffects {
  import opened RunSpec
  import opened RunProofs
  import opened RunSteps
  import opened RunTheorems

  datatype Effect = Effect(status: RunStatus, events: seq<Event>, carried: bool)

  ghost predicate IsCarried(s: State, r: RunId) {
    exists t :: InFlight(s, t, r)
  }

  /** The change of run r from s to s' is the effect e. */
  ghost predicate Has(s: State, s': State, r: RunId, e: Effect)
    requires r in s.runs
  {
    && r in s'.runs && s'.runs[r] == s.runs[r].(status := e.status)
    && Log(s', r) == Log(s, r) + e.events
    && (IsCarried(s', r) <==> e.carried)
  }

  // ----- the table

  /** A task leaves its stream: its call is completed, and a stream that was not stopped completes the
      run with the text of the buffer. */
  function Leaving(status: RunStatus, task: Task, stopped: bool): Effect {
    var settled := if task.resumed.Some? then [ToolCallCompleted(task.resumed.value.0)] else [];
    if stopped then Effect(status, settled, false)
    else Effect(Completed, settled + [MessageCompleted(task.buffer), RunCompleted], false)
  }

  /** A task leaves on an exception. */
  function Raising(status: RunStatus, task: Task, apiError: bool): Effect {
    if task.resumed.None? then Effect(Failed, [MessageFailed, RunFailed], false)
    else if apiError then Effect(status, [], false)
    else Effect(Failed, [ToolCallFailed(task.resumed.value.0), MessageFailed, RunFailed], false)
  }

  function OfChunk(task: Task, chunk: Chunk): Effect {
    match chunk
    case Delta(text) => Effect(Running, if text == "" then [] else [MessageDelta(text)], true)
    case Interrupt(call, _) =>
      if task.resumed.Some? then Raising(Running, task, true)
      else Effect(RequiresAction,
          [ToolCallCreated(call), RunUpdated(Known(RequiresAction)), ToolCallWaitingHuman(call)], false)
    case BadInterrupt(_) => Raising(Running, task, false)
    case GraphUpdate(said, message) => Effect(Running, Updates(if said.Some? then said.value else "", message), true)
    case ToolUpdate(name) => Effect(Running, [ToolCallProgress(name)], true)
    case Progress => Effect(Running, [RunProgress], true)
    case Unknown => Effect(Running, [], true)
  }

  /** The resume is taken up: it names the waiting call of a run that requires action. */
  ghost predicate TakenUp(s: State, r: RunId, call: ToolCallId)
    requires r in s.runs
  {
    s.runs[r].status == RequiresAction && Waiting(s, call, r)
  }

  /** Nothing happens to the run. */
  ghost function Nothing(s: State, r: RunId): Effect
    requires r in s.runs
  {
    Effect(s.runs[r].status, [], IsCarried(s, r))
  }

  /** The effect of a step on any run. */
  ghost function EffectOn(s: State, step: Step, r: RunId): Effect
    requires r in s.runs
  {
    if Subject(s, step) == Some(r) then EffectOf(s, step, r) else Nothing(s, r)
  }

  /** The effect of a step on the run it is about. */
  ghost function EffectOf(s: State, step: Step, r: RunId): Effect
    requires r in s.runs
  {
    var status, nothing := s.runs[r].status, Nothing(s, r);
    match step
    case CreateRun(_, _, _) => nothing
    case Start(_, _) => Effect(Running, [RunCreated(status), MessageCreated, RunUpdated(Known(Running))], true)
    case Resume(_, _, call, action) =>
      if TakenUp(s, r, call) then
        Effect(Running, [RunUpdated(Known(Running))], ParsedAction(action) in s.toolCalls[call].allowed)
      else nothing
    case Cancel(_) =>
      if status == Queued || status == Running then
        var w := FindWaiting(s, r);
        Effect(Cancelled, (if w.Some? then [ToolCallUpdated(w.value)] else []) + [MessageWasCancelled, RunCancelled],
            IsCarried(s, r))
      else nothing
    case ChunkArrives(t, chunk) =>
      if !InFlight(s, t, r) then nothing
      else if status == Cancelled then Leaving(status, s.tasks[t], true)
      else OfChunk(s.tasks[t], chunk)
    case StreamEnds(t) => if InFlight(s, t, r) then Leaving(status, s.tasks[t], false) else nothing
    case StreamFails(t, apiError, _) => if InFlight(s, t, r) then Raising(status, s.tasks[t], apiError) else nothing
  }

  // ----- the table is right

  /** Only the run's status and log differ. */
  ghost predicate Moved(s: State, s': State, r: RunId, status: RunStatus, events: seq<Event>)
    requires r in s.runs
  {
    && s'.runs == s.runs[r := s.runs[r].(status := status)] && s'.tasks == s.tasks
    && Log(s', r) == Log(s, r) + events
  }

  lemma MovedTwice(a: State, b: State, c: State, r: RunId, status: RunStatus, events: seq<Event>, status': RunStatus,
      more: seq<Event>)
    requires r in a.runs && Moved(a, b, r, status, events) && Moved(b, c, r, status', more)
    ensures Moved(a, c, r, status', events + more)
  {
    assert Log(a, r) + (events + more) == (Log(a, r) + events) + more;
  }

  lemma CallDoneMoves(s: State, r: RunId, call: ToolCallId, action: string)
    requires r in s.runs
    ensures Moved(s, CallDone(s, r, call, action), r, s.runs[r].status, [ToolCallCompleted(call)])
  {}

  lemma CallBrokenMoves(s: State, r: RunId, call: ToolCallId)
    requires r in s.runs
    ensures Moved(s, CallBroken(s, r, call), r, s.runs[r].status, [ToolCallFailed(call)])
  {}

  lemma FinalizedMoves(s: State, r: RunId, reply: string)
    requires r in s.runs
    ensures Moved(s, Finalized(s, r, reply), r, Completed, [MessageCompleted(reply), RunCompleted])
  {}

  lemma FailedMoves(s: State, r: RunId, why: string)
    requires r in s.runs
    ensures Moved(s, FailedRun(s, r, why), r, Failed, [MessageFailed, RunFailed])
  {
    hide FailureText;
  }

  lemma NothingMoves(s: State, r: RunId)
    requires r in s.runs
    ensures Moved(s, s, r, s.runs[r].status, [])
  {}

  /** After a move the only task of the run goes. */
  lemma TaskGoes(s: State, a: State, t: TaskId, r: RunId, status: RunStatus, events: seq<Event>)
    requires InFlight(s, t, r) && r in s.runs && OneTask(s, r) && Moved(s, a, r, status, events)
    ensures Has(s, EndTask(a, t), r, Effect(status, events, false))
  {
    NoTasksLeft(s, t, r);
    assert forall u :: InFlight(EndTask(a, t), u, r) <==> InFlight(EndTask(s, t), u, r);
  }

  /** How a task leaves its stream. */
  lemma LeavingIsRight(s: State, t: TaskId, r: RunId, stopped: bool)
    requires InFlight(s, t, r) && r in s.runs && OneTask(s, r)
    ensures Has(s, Ended(s, t, stopped), r, Leaving(s.runs[r].status, s.tasks[t], stopped))
  {
    hide CallDone, Finalized, Has, Moved, OneTask, EndTask;
    var task, status := s.tasks[t], s.runs[r].status;
    var a, settled := s, [];
    NothingMoves(s, r);
    if task.resumed.Some? {
      a, settled := CallDone(s, r, task.resumed.value.0, task.resumed.value.1),
          [ToolCallCompleted(task.resumed.value.0)];
      CallDoneMoves(s, r, task.resumed.value.0, task.resumed.value.1);
    }
    if stopped {
      TaskGoes(s, a, t, r, status, settled);
    } else {
      StillThere(s, a, r, status, settled);
      FinalizedMoves(a, r, task.buffer);
      MovedTwice(s, a, Finalized(a, r, task.buffer), r, status, settled, Completed,
          [MessageCompleted(task.buffer), RunCompleted]);
      TaskGoes(s, Finalized(a, r, task.buffer), t, r, Completed,
          settled + [MessageCompleted(task.buffer), RunCompleted]);
    }
  }

  lemma StillThere(s: State, a: State, r: RunId, status: RunStatus, events: seq<Event>)
    requires r in s.runs && Moved(s, a, r, status, events)
    ensures r in a.runs && a.runs[r].status == status
  {}

  /** How a task leaves on an exception. */
  lemma RaisingIsRight(s: State, t: TaskId, r: RunId, apiError: bool, why: string)
    requires InFlight(s, t, r) && r in s.runs && OneTask(s, r)
    ensures Has(s, Broken(s, t, apiError, why), r, Raising(s.runs[r].status, s.tasks[t], apiError))
  {
    hide CallBroken, FailedRun, Has, Moved, OneTask, EndTask;
    var task, status := s.tasks[t], s.runs[r].status;
    if task.resumed.None? {
      FailedMoves(s, r, why);
      TaskGoes(s, FailedRun(s, r, why), t, r, Failed, [MessageFailed, RunFailed]);
    } else if apiError {
      NothingMoves(s, r);
      TaskGoes(s, s, t, r, status, []);
    } else {
      var c := task.resumed.value.0;
      var a := CallBroken(s, r, c);
      CallBrokenMoves(s, r, c);
      StillThere(s, a, r, status, [ToolCallFailed(c)]);
      FailedMoves(a, r, why);
      MovedTwice(s, a, FailedRun(a, r, why), r, status, [ToolCallFailed(c)], Failed, [MessageFailed, RunFailed]);
      assert [ToolCallFailed(c)] + [MessageFailed, RunFailed] == [ToolCallFailed(c), MessageFailed, RunFailed];
      TaskGoes(s, FailedRun(a, r, why), t, r, Failed, [ToolCallFailed(c), MessageFailed, RunFailed]);
    }
  }

  lemma InterruptedMoves(s: State, r: RunId, call: ToolCallId, allowed: seq<string>)
    requires r in s.runs
    ensures Moved(s, Interrupted(s, r, call, allowed), r, RequiresAction,
                  [ToolCallCreated(call), RunUpdated(Known(RequiresAction)), ToolCallWaitingHuman(call)])
  {}

  /** A task that goes on carries its run. */
  lemma TaskStays(s: State, s': State, t: TaskId, r: RunId, events: seq<Event>)
    requires InFlight(s, t, r) && r in s.runs && s.runs[r].status == Running && s'.runs == s.runs && InFlight(s', t, r)
    requires Log(s', r) == Log(s, r) + events
    ensures Has(s, s', r, Effect(Running, events, true))
  {}

  /** What a chunk of a running run does. */
  lemma ChunkIsRight(s: State, t: TaskId, r: RunId, chunk: Chunk)
    requires Inv(s) && InFlight(s, t, r) && r in s.runs && s.runs[r].status == Running
    ensures Has(s, Project(s, t, chunk), r, OfChunk(s.tasks[t], chunk))
  {
    TaskFacts(s, t, r);
    if chunk.Interrupt? {
      InterruptIsRight(s, t, r, chunk.call, chunk.allowed);
    } else if chunk.BadInterrupt? {
      RaisingIsRight(s, t, r, false, chunk.why);
    } else {
      LoggingIsRight(s, t, r, chunk);
    }
    hide Inv, Has, Broken, OneTask;
  }

  lemma InterruptIsRight(s: State, t: TaskId, r: RunId, call: ToolCallId, allowed: seq<string>)
    requires Inv(s) && InFlight(s, t, r) && r in s.runs && s.runs[r].status == Running
    ensures Has(s, Project(s, t, Interrupt(call, allowed)), r, OfChunk(s.tasks[t], Interrupt(call, allowed)))
  {
    TaskFacts(s, t, r);
    hide Inv, Has, Moved, OneTask, Broken, Interrupted, EndTask;
    if s.tasks[t].resumed.Some? {
      ResumedHasItsCall(s, t, r);
      RaisingIsRight(s, t, r, true, "当前运行已存在待处理人工操作");
    } else {
      StartedHasNoCall(s, t, r);
      var a := Interrupted(s, r, call, allowed);
      InterruptedMoves(s, r, call, allowed);
      SameTask(s, a, r, t, RequiresAction,
          [ToolCallCreated(call), RunUpdated(Known(RequiresAction)), ToolCallWaitingHuman(call)]);
      TaskGoes(s, a, t, r, RequiresAction,
          [ToolCallCreated(call), RunUpdated(Known(RequiresAction)), ToolCallWaitingHuman(call)]);
    }
  }

  lemma SameTask(s: State, a: State, r: RunId, t: TaskId, status: RunStatus, events: seq<Event>)
    requires r in s.runs && Moved(s, a, r, status, events)
    ensures a.tasks == s.tasks
  {}

  lemma LoggingIsRight(s: State, t: TaskId, r: RunId, chunk: Chunk)
    requires InFlight(s, t, r) && r in s.runs && s.runs[r].status == Running && !chunk.Interrupt?
             && !chunk.BadInterrupt?
    ensures Has(s, Project(s, t, chunk), r, OfChunk(s.tasks[t], chunk))
  {
    var s' := Project(s, t, chunk);
    hide Said, Has;
    if chunk.GraphUpdate? {
      GraphUpdateLogs(s, t, if chunk.run.Some? then chunk.run.value else "", chunk.message);
    }
    TaskStays(s, s', t, r, OfChunk(s.tasks[t], chunk).events);
  }

  lemma StayingPut(s: State, r: RunId)
    requires r in s.runs
    ensures Has(s, s, r, Nothing(s, r))
  {}

  lemma SameHasNothing(s: State, s': State, r: RunId)
    requires WellFormed(s) && r in s.runs && Same(s, s', r)
    ensures Has(s, s', r, Nothing(s, r))
  {
    if t :| InFlight(s, t, r) {
      assert InFlight(s', t, r);
    }
    if t :| InFlight(s', t, r) {
      assert InFlight(s, t, r);
    }
  }

  lemma StartIsRight(s: State, t: TaskId, r: RunId)
    requires WellFormed(s) && r in s.runs
    ensures Has(s, Started(s, t, r), r, EffectOf(s, Start(t, r), r))
  {
    StartedFacts(s, t, r);
    var s' := Started(s, t, r);
    hide Started, StatusAfter, WellFormed;
    assert InFlight(s', t, r);
  }

  lemma ResumeIsRight(s: State, t: TaskId, r: RunId, call: ToolCallId, action: string)
    requires Inv(s) && WellFormed(s) && r in s.runs && t !in s.tasks
    ensures Has(s, Exec(s, Resume(t, r, call, action)).0, r, EffectOf(s, Resume(t, r, call, action), r))
  {
    StayingPut(s, r);
    if TakenUp(s, r, call) {
      var next := Resumed(s, t, r, call, action);
      ResumeKeepsInv(s, t, r, call, action);
      TaskFacts(next, t, r);
      assert Log(next, r) == Log(s, r) + [RunUpdated(Known(Running))];
      hide Inv, WellFormed, Resumed, Broken;
      if ParsedAction(action) in s.toolCalls[call].allowed {
        assert InFlight(next, t, r);
      } else {
        RaisingIsRight(next, t, r, true, "");
      }
    }
  }

  lemma CancelIsRight(s: State, r: RunId)
    requires WellFormed(s) && r in s.runs
    ensures Has(s, CancelledRun(s, r, FindWaiting(s, r)), r,
                Effect(Cancelled,
                    (if FindWaiting(s, r).Some? then [ToolCallUpdated(FindWaiting(s, r).value)] else [])
                        + [MessageWasCancelled, RunCancelled], IsCarried(s, r)))
  {
    var w := FindWaiting(s, r);
    var s' := CancelledRun(s, r, w);
    assert s.runs[r].output in s.messages;
    hide WellFormed;
    CancelledMoves(s, r, w);
    assert forall t :: InFlight(s', t, r) <==> InFlight(s, t, r);
    hide CancelledRun, FindWaiting, InFlight;
    if t :| InFlight(s, t, r) {
      assert InFlight(s', t, r);
    }
  }

  lemma CancelledMoves(s: State, r: RunId, w: Option<ToolCallId>)
    requires r in s.runs
    ensures Moved(s, CancelledRun(s, r, w), r, Cancelled,
              (if w.Some? then [ToolCallUpdated(w.value)] else []) + [MessageWasCancelled, RunCancelled])
  {
    var a := CallWithdrawn(s, r, w);
    var first := if w.Some? then [ToolCallUpdated(w.value)] else [];
    WithdrawnMoves(s, r, w);
    hide CallWithdrawn;
    MovedTwice(s, a, CancelledRun(s, r, w), r, s.runs[r].status, first, Cancelled, [MessageWasCancelled, RunCancelled]);
  }

  lemma WithdrawnMoves(s: State, r: RunId, w: Option<ToolCallId>)
    requires r in s.runs
    ensures Moved(s, CallWithdrawn(s, r, w), r, s.runs[r].status, if w.Some? then [ToolCallUpdated(w.value)] else [])
  {}

  /** Every admissible step does to every run exactly what the table says. */
  lemma StepHasEffect(s: State, step: Step, r: RunId)
    requires Inv(s) && Admissible(s, step) && r in s.runs
    ensures WellFormed(s) && Has(s, Exec(s, step).0, r, EffectOn(s, step, r))
  {
    InvIsWellFormed(s);
    if Subject(s, step) != Some(r) {
      StepIsLocal(s, step, r);
      SameHasNothing(s, Exec(s, step).0, r);
    } else {
      OwnStepHasEffect(s, step, r);
    }
    hide Inv, WellFormed, Has, Exec, EffectOf, Same, Nothing, Admissible;
  }

  lemma OwnStepHasEffect(s: State, step: Step, r: RunId)
    requires Inv(s) && WellFormed(s) && Admissible(s, step) && r in s.runs && Subject(s, step) == Some(r)
    ensures Has(s, Exec(s, step).0, r, EffectOf(s, step, r))
  {
    hide Inv, WellFormed, Has, Started, Resumed, CancelledRun, Ended, Broken, Project, Leaving, Raising, OfChunk;
    StayingPut(s, r);
    match step {
      case CreateRun(_, _, _) =>
      case Start(t, _) => StartIsRight(s, t, r);
      case Resume(t, _, call, action) => ResumeIsRight(s, t, r, call, action);
      case Cancel(_) => CancelIsRight(s, r);
      case ChunkArrives(t, chunk) =>
        TaskFacts(s, t, r);
        if s.runs[r].status == Cancelled {
          LeavingIsRight(s, t, r, true);
        } else {
          ChunkIsRight(s, t, r, chunk);
        }
      case StreamEnds(t) =>
        TaskFacts(s, t, r);
        LeavingIsRight(s, t, r, false);
      case StreamFails(t, apiError, why) =>
        TaskFacts(s, t, r);
        RaisingIsRight(s, t, r, apiError, why);
    }
  }

  // ----- what the projector's callbacks leave behind

  /** The run and its message are closed with the given events; nothing else is different. */
  ghost predicate Closed(s: State, s': State, r: RunId, status: RunStatus, message: Message, events: seq<Event>)
    requires r in s.runs
  {
    && s'.runs == s.runs[r := s.runs[r].(status := status)]
    && s'.messages == s.messages[s.runs[r].output := message]
    && s'.log == s.log[r := Log(s, r) + events]
    && s'.toolCalls == s.toolCalls && s'.tasks == s.tasks
  }

  lemma FinalizedObserved(s: State, r: RunId, reply: string)
    requires r in s.runs && s.runs[r].output in s.messages
    ensures var s' := Finalized(s, r, reply);
            && Closed(s, s', r, Completed, Message(MessageDone, reply), [MessageCompleted(reply), RunCompleted])
            && LogAgrees(s', r)
  {
    StatusOfAppend(Log(s, r) + [MessageCompleted(reply)], RunCompleted);
    assert Log(s, r) + [MessageCompleted(reply), RunCompleted] ==
        Log(s, r) + [MessageCompleted(reply)] + [RunCompleted];
  }

  lemma FailedObserved(s: State, r: RunId, why: string)
    requires r in s.runs && s.runs[r].output in s.messages
    ensures var s' := FailedRun(s, r, why);
            && Closed(s, s', r, Failed, Message(MessageError, FailureText(why)), [MessageFailed, RunFailed])
            && LogAgrees(s', r)
  {
    hide FailureText;
    StatusOfAppend(Log(s, r) + [MessageFailed], RunFailed);
    assert Log(s, r) + [MessageFailed, RunFailed] == Log(s, r) + [MessageFailed] + [RunFailed];
  }

  /** The call waits and the run requires action; nothing else is different. */
  ghost predicate Asks(s: State, s': State, r: RunId, call: ToolCallId, allowed: seq<string>)
    requires r in s.runs
  {
    && s'.runs == s.runs[r := s.runs[r].(status := RequiresAction)]
    && s'.toolCalls == s.toolCalls[call := ToolCall(r, WaitingHuman, allowed, None)]
    && s'.log ==
        s.log[r := Log(s, r) + [ToolCallCreated(call), RunUpdated(Known(RequiresAction)), ToolCallWaitingHuman(call)]]
    && s'.messages == s.messages && s'.tasks == s.tasks
  }

  lemma InterruptedObserved(s: State, r: RunId, call: ToolCallId, allowed: seq<string>)
    requires r in s.runs
    ensures var s' := Interrupted(s, r, call, allowed);
            && Asks(s, s', r, call, allowed) && StatusAfter(Log(s', r)) == Known(RequiresAction)
            && (call !in s.toolCalls && (forall c :: !Waiting(s, c, r)) ==>
                  forall c :: Waiting(s', c, r) <==> c == call)
  {
    if call !in s.toolCalls && forall c :: !Waiting(s, c, r) {
      FreshCallWaits(s, r, call, allowed);
    }
    var log := Log(s, r) + [ToolCallCreated(call)];
    StatusOfAppend(log, RunUpdated(Known(RequiresAction)));
    OneUpdate(Known(RequiresAction));
    StatusOfAppend(log + [RunUpdated(Known(RequiresAction))], ToolCallWaitingHuman(call));
    hide StatusAfter, Waiting;
    assert Log(s, r) + [ToolCallCreated(call), RunUpdated(Known(RequiresAction)), ToolCallWaitingHuman(call)]
        == log + [RunUpdated(Known(RequiresAction))] + [ToolCallWaitingHuman(call)];
  }

  /** The call has its final status, and what the log says of the run is what it said before; nothing else
      is different, and of the waiting calls only this one is gone. */
  ghost predicate Settles(s: State, s': State, r: RunId, call: ToolCallId, status: ToolCallStatus,
      output: Option<string>, e: Event) {
    && s'.toolCalls ==
        (if call in s.toolCalls then s.toolCalls[call := s.toolCalls[call].(status := status, output := output)]
            else s.toolCalls)
    && s'.log == s.log[r := Log(s, r) + [e]] && StatusAfter(Log(s', r)) == StatusAfter(Log(s, r))
    && s'.runs == s.runs && s'.messages == s.messages && s'.tasks == s.tasks
    && (forall c, q :: Waiting(s', c, q) <==> Waiting(s, c, q) && c != call)
  }

  lemma CallDoneObserved(s: State, r: RunId, call: ToolCallId, action: string)
    ensures Settles(s, CallDone(s, r, call, action), r, call, CallCompleted, Some(action), ToolCallCompleted(call))
  {
    StatusOfAppend(Log(s, r), ToolCallCompleted(call));
    hide StatusAfter;
  }

  lemma CallBrokenObserved(s: State, r: RunId, call: ToolCallId)
    ensures Settles(s, CallBroken(s, r, call), r, call, CallFailed, None, ToolCallFailed(call))
  {
    StatusOfAppend(Log(s, r), ToolCallFailed(call));
    hide StatusAfter;
  }

  lemma LeavingObserved(s: State, t: TaskId, stopped: bool)
    requires t in s.tasks && s.tasks[t].run in s.runs && OneTask(s, s.tasks[t].run)
    ensures Has(s, Ended(s, t, stopped), s.tasks[t].run, Leaving(s.runs[s.tasks[t].run].status, s.tasks[t], stopped))
    ensures Inv(s) && (!stopped || s.runs[s.tasks[t].run].status == Cancelled) ==> Inv(Ended(s, t, stopped))
  {
    var r := s.tasks[t].run;
    LeavingIsRight(s, t, r, stopped);
    hide Has, Inv, Ended, Leaving;
    if Inv(s) && !stopped {
      StreamEndKeepsInv(s, t, r);
    } else if Inv(s) && s.runs[r].status == Cancelled {
      StopKeepsInv(s, t, r);
    }
  }

  lemma RaisingObserved(s: State, t: TaskId, apiError: bool, why: string)
    requires t in s.tasks && s.tasks[t].run in s.runs && OneTask(s, s.tasks[t].run)
    ensures Has(s, Broken(s, t, apiError, why), s.tasks[t].run,
              Raising(s.runs[s.tasks[t].run].status, s.tasks[t], apiError))
    ensures Inv(s) ==> Inv(Broken(s, t, apiError, why))
  {
    var r := s.tasks[t].run;
    RaisingIsRight(s, t, r, apiError, why);
    hide Has, Inv, Broken, Raising;
    if Inv(s) {
      StreamFailureKeepsInv(s, t, r, apiError, why);
    }
  }

  lemma ProjectObserved(s: State, t: TaskId, r: RunId, chunk: Chunk)
    requires Inv(s) && InFlight(s, t, r) && r in s.runs && s.runs[r].status == Running
    ensures OneTask(s, r) && s.runs[r].output in s.messages
    ensures Has(s, Project(s, t, chunk), r, OfChunk(s.tasks[t], chunk))
    ensures Admissible(s, ChunkArrives(t, chunk)) ==> Inv(Project(s, t, chunk))
  {
    TaskFacts(s, t, r);
    ChunkIsRight(s, t, r, chunk);
    hide Has, Inv, OfChunk, Project;
    if Admissible(s, ChunkArrives(t, chunk)) {
      ProjectKeepsInv(s, t, r, chunk);
    }
  }

  lemma InterruptedTasks(s: State, r: RunId, call: ToolCallId, allowed: seq<string>)
    requires r in s.runs && OneTask(s, r) && s.runs[r].output in s.messages
    ensures var s' := Interrupted(s, r, call, allowed);
            && s'.tasks == s.tasks && OneTask(s', r) && s'.messages == s.messages
            && r in s'.runs && s'.runs[r].output == s.runs[r].output
  {
    SameTasksOne(s, Interrupted(s, r, call, allowed), r);
  }

  lemma ResumedOneTask(s: State, t: TaskId, r: RunId, call: ToolCallId, action: string)
    requires Inv(s) && r in s.runs && s.runs[r].status == RequiresAction
    ensures var s' := Resumed(s, t, r, call, action); OneTask(s', r) && r in s'.runs && s'.runs[r].output in s'.messages
  {
    CarriedStatus(s, r);
    assert forall u :: !InFlight(s, u, r);
    assert forall u :: u != t ==> (InFlight(Resumed(s, t, r, call, action), u, r) <==> InFlight(s, u, r));
  }

  // ----- stranded runs

  /** The three ways in which a run is left running without a task: a decision that is not allowed, an
      interrupt in a resumed stream, and an ApiError out of a resumed stream. */
  ghost predicate Strands(s: State, step: Step, r: RunId)
    requires r in s.runs
  {
    match step
    case Resume(_, q, call, action) =>
      q == r && TakenUp(s, r, call) && ParsedAction(action) !in s.toolCalls[call].allowed
    case ChunkArrives(t, chunk) => chunk.Interrupt? && ResumedTaskOf(s, t, r)
    case StreamFails(t, apiError, _) => apiError && ResumedTaskOf(s, t, r)
    case _ => false
  }

  /** A resumed task of the run, which is running. */
  ghost predicate ResumedTaskOf(s: State, t: TaskId, r: RunId)
    requires r in s.runs
  {
    InFlight(s, t, r) && s.tasks[t].resumed.Some? && s.runs[r].status == Running
  }

  lemma StrandedIsUncarried(s: State, r: RunId)
    ensures Stranded(s, r) <==> r in s.runs && s.runs[r].status == Running && !IsCarried(s, r)
  {}

  /** A run is stranded by exactly these steps. */
  lemma StrandedIff(s: State, step: Step, r: RunId)
    requires Inv(s) && Admissible(s, step) && r in s.runs && !Stranded(s, r)
    ensures WellFormed(s)
    ensures Stranded(Exec(s, step).0, r) <==> Strands(s, step, r)
  {
    StepHasEffect(s, step, r);
    StrandedIsUncarried(s, r);
    StrandedIsUncarried(Exec(s, step).0, r);
    CarriedStatus(s, r);
    hide Inv, WellFormed, Exec, Stranded, Updates;
  }

  lemma CarriedStatus(s: State, r: RunId)
    requires Inv(s) && r in s.runs
    ensures IsCarried(s, r) ==> s.runs[r].status == Running || s.runs[r].status == Cancelled
    ensures s.runs[r].status == RequiresAction ==> !IsCarried(s, r)
  {
    if t :| InFlight(s, t, r) {
      TaskFacts(s, t, r);
    }
  }

  /** A decision that is not allowed is refused after the run has been set running: it stays so, without
      a task, its call still waiting. */
  lemma RefusedDecision(s: State, t: TaskId, r: RunId, call: ToolCallId, action: string)
    requires Inv(s) && r in s.runs && t !in s.tasks && TakenUp(s, r, call)
    requires ParsedAction(action) !in s.toolCalls[call].allowed
    ensures WellFormed(s)
    ensures var (s', reply) := Exec(s, Resume(t, r, call, action));
            reply == DecisionNotAllowed && Inv(s') && Stranded(s', r) && Waiting(s', call, r)
  {
    var step := Resume(t, r, call, action);
    InvIsWellFormed(s);
    StepKeepsInv(s, step);
    StrandedIff(s, step, r);
    RefusalKeepsInv(s, t, r, call, action);
    hide Inv, WellFormed, Stranded, Resumed, Broken, NoRevival;
  }

  // ----- a history that strands a run

  const ALL := ["approve", "reject", "edit"]
  const START1 := Start(100, 1)
  const ASK1 := ChunkArrives(100, Interrupt(50, ALL))
  const EDIT1 := Resume(101, 1, 50, "edit")
  const ASK2 := ChunkArrives(101, Interrupt(51, ALL))

  lemma {:induction false} HistoryThen(s: State, steps: seq<Step>, middle: State, step: Step)
    requires History(s, steps, middle) && WellFormed(middle) && Admissible(middle, step)
    ensures History(s, steps + [step], Exec(middle, step).0)
    decreases |steps|
  {
    hide WellFormed, Admissible, Exec;
    if steps == [] {
      assert [] + [step] == [step] && [step][1..] == [];
    } else {
      assert (steps + [step])[1..] == steps[1..] + [step];
      HistoryThen(Exec(s, steps[0]).0, steps[1..], middle, step);
    }
  }

  ghost predicate Reached(steps: seq<Step>, s: State) {
    History(Empty, steps, s) && Inv(s) && WellFormed(s)
  }

  lemma ReachedThen(steps: seq<Step>, s: State, step: Step)
    requires Reached(steps, s) && Admissible(s, step)
    ensures WellFormed(s) && Reached(steps + [step], Exec(s, step).0)
  {
    HistoryThen(Empty, steps, s, step);
    StepKeepsInv(s, step);
    hide Inv, Exec, History, Admissible, NoRevival;
    InvIsWellFormed(Exec(s, step).0);
  }

  lemma ReachedNothing()
    ensures Reached([], Empty)
  {}

  lemma StartedOne(s: State)
    requires s == State(map[1 := Run(7, 10, Queued)], map[10 := Message(Streaming, "")], map[], map[], map[])
    ensures WellFormed(s) && Admissible(s, START1)
    ensures var s' := Exec(s, START1).0;
            && s'.runs == map[1 := Run(7, 10, Running)] && s'.toolCalls == map[]
            && s'.tasks == map[100 := Task(1, None, "", 3)]
            && Log(s', 1) == [RunCreated(Queued), MessageCreated, RunUpdated(Known(Running))]
  {}

  lemma InterruptedOne(s: State)
    requires Inv(s) && WellFormed(s) && s.runs == map[1 := Run(7, 10, Running)] && s.toolCalls == map[]
    requires s.tasks.Keys == {100} && InFlight(s, 100, 1) && s.tasks[100].resumed.None?
    ensures var s' := Exec(s, ASK1).0;
            && Admissible(s, ASK1)
            && s'.runs == map[1 := Run(7, 10, RequiresAction)]
            && s'.toolCalls == map[50 := ToolCall(1, WaitingHuman, ALL, None)]
            && s'.tasks == map[]
  {
    assert FindWaiting(s, 1).None?;
    assert s.tasks - {100} == map[];
  }

  lemma ResumedOne(s: State)
    requires WellFormed(s) && s.runs == map[1 := Run(7, 10, RequiresAction)]
             && s.toolCalls == map[50 := ToolCall(1, WaitingHuman, ALL, None)]
    requires s.tasks == map[]
    ensures var s' := Exec(s, EDIT1).0;
            && Admissible(s, EDIT1) && s'.runs == map[1 := Run(7, 10, Running)] && s'.toolCalls == s.toolCalls
            && InFlight(s', 101, 1) && s'.tasks[101].resumed.Some?
  {
    assert ParsedAction("edit") == ALL[2];
  }

  lemma StartedHistory() returns (s: State)
    ensures Reached([CREATE1] + [START1], s)
    ensures s.runs == map[1 := Run(7, 10, Running)] && s.toolCalls == map[]
    ensures s.tasks == map[100 := Task(1, None, "", 3)]
    ensures Log(s, 1) == [RunCreated(Queued), MessageCreated, RunUpdated(Known(Running))]
  {
    ReachedNothing();
    CreatedOne();
    ReachedThen([], Empty, CREATE1);
    s := Exec(Empty, CREATE1).0;
    StartedOne(s);
    assert [] + [CREATE1] == [CREATE1];
    ReachedThen([CREATE1], s, START1);
    s := Exec(s, START1).0;
  }

  lemma AskedOnce() returns (s: State)
    ensures Reached([CREATE1] + [START1] + [ASK1], s)
    ensures s.runs == map[1 := Run(7, 10, RequiresAction)] && s.tasks == map[]
    ensures s.toolCalls == map[50 := ToolCall(1, WaitingHuman, ALL, None)]
  {
    s := StartedHistory();
    hide Exec, History, Inv, WellFormed, CREATE1, START1, ASK1, ALL;
    InterruptedOne(s);
    ReachedThen([CREATE1] + [START1], s, ASK1);
    s := Exec(s, ASK1).0;
  }

  /** Created, started, interrupted, resumed with an edit, interrupted again: the run is stranded. */
  lemma StrandingHistory()
    ensures exists s :: History(Empty, [CREATE1] + [START1] + [ASK1] + [EDIT1] + [ASK2], s) && Stranded(s, 1)
  {
    var s := AskedOnce();
    ResumedOne(s);
    ReachedThen([CREATE1] + [START1] + [ASK1], s, EDIT1);
    var s4 := Exec(s, EDIT1).0;
    assert Admissible(s4, ASK2);
    SecondInterruptStrands(s4, 101, 51, ALL);
    hide Exec, History, Inv, WellFormed, CREATE1, START1, ASK1, EDIT1, Stranded, Admissible;
    ReachedThen([CREATE1] + [START1] + [ASK1] + [EDIT1], s4, ASK2);
  }

  // ----- runs that are over

  /** The task of a finished run that can still change it: by the end of its stream, or by a failure
      that is not passed on. */
  ghost predicate Overwrites(s: State, step: Step, r: RunId) {
    match step
    case StreamEnds(t) => InFlight(s, t, r)
    case StreamFails(t, apiError, _) => InFlight(s, t, r) && !(apiError && s.tasks[t].resumed.Some?)
    case _ => false
  }

  /** The status of a run that is over changes exactly if it was cancelled while its task was in flight
      and that task's stream now ends, or fails other than by an ApiError in a resume. */
  lemma FinishedStatusChangesIff(s: State, step: Step, r: RunId)
    requires Inv(s) && Admissible(s, step) && r in s.runs && !IsActive(s.runs[r].status)
    ensures WellFormed(s) && r in Exec(s, step).0.runs
    ensures var now := Exec(s, step).0.runs[r].status;
            && (now != s.runs[r].status <==> s.runs[r].status == Cancelled && Overwrites(s, step, r))
            && (now != s.runs[r].status ==> now == if step.StreamEnds? then Completed else Failed)
  {
    StepHasEffect(s, step, r);
    CarriedStatus(s, r);
    hide Inv, WellFormed, Exec, Updates;
  }

  /** What is still logged of a run that is over: what its task says as it leaves. */
  lemma FinishedLogGrowsIff(s: State, step: Step, r: RunId)
    requires Inv(s) && Admissible(s, step) && r in s.runs && !IsActive(s.runs[r].status)
    ensures WellFormed(s)
    ensures Log(Exec(s, step).0, r) != Log(s, r) <==>
            s.runs[r].status == Cancelled
            && (Overwrites(s, step, r)
                || (step.ChunkArrives? && InFlight(s, step.task, r) && s.tasks[step.task].resumed.Some?))
  {
    StepHasEffect(s, step, r);
    CarriedStatus(s, r);
    hide Inv, WellFormed, Exec, Updates;
  }

  /** Created, started, cancelled, and then the stream ends by itself: the cancelled run is completed, and
      two events follow its cancellation. */
  lemma CompletedAfterCancellation() returns (s: State, last: State)
    ensures Reached([CREATE1] + [START1] + [Cancel(1)], s)
    ensures Reached([CREATE1] + [START1] + [Cancel(1)] + [StreamEnds(100)], last)
    ensures 1 in s.runs && s.runs[1].status == Cancelled && 1 in last.runs && last.runs[1].status == Completed
    ensures Log(s, 1) ==
              [RunCreated(Queued), MessageCreated, RunUpdated(Known(Running)), MessageWasCancelled, RunCancelled]
    ensures Log(last, 1) == Log(s, 1) + [MessageCompleted(""), RunCompleted]
  {
    hide Exec, History, Inv, WellFormed, CREATE1, START1;
    var started := StartedHistory();
    s := CancelledWhileRunning(started);
    assert Admissible(started, Cancel(1)) && Admissible(s, StreamEnds(100));
    ReachedThen([CREATE1] + [START1], started, Cancel(1));
    ReachedThen([CREATE1] + [START1] + [Cancel(1)], s, StreamEnds(100));
    last := Exec(s, StreamEnds(100)).0;
    hide Admissible;
    StepHasEffect(s, StreamEnds(100), 1);
    StreamEndEffect(s);
    hide EffectOn;
  }

  lemma StreamEndEffect(s: State)
    requires 1 in s.runs && s.tasks == map[100 := Task(1, None, "", 3)]
    ensures EffectOn(s, StreamEnds(100), 1) == Effect(Completed, [MessageCompleted(""), RunCompleted], false)
  {
    assert [] + [MessageCompleted(""), RunCompleted] == [MessageCompleted(""), RunCompleted];
  }

  lemma CancelledWhileRunning(started: State) returns (s: State)
    requires Inv(started) && WellFormed(started)
    requires started.runs == map[1 := Run(7, 10, Running)] && started.toolCalls == map[]
    requires started.tasks == map[100 := Task(1, None, "", 3)]
    requires Log(started, 1) == [RunCreated(Queued), MessageCreated, RunUpdated(Known(Running))]
    ensures s == Exec(started, Cancel(1)).0 && 1 in s.runs && s.runs[1].status == Cancelled && s.tasks == started.tasks
    ensures Log(s, 1) ==
              [RunCreated(Queued), MessageCreated, RunUpdated(Known(Running)), MessageWasCancelled, RunCancelled]
  {
    s := Exec(started, Cancel(1)).0;
    assert FindWaiting(started, 1).None?;
    CancelledMoves(started, 1, None);
    hide Inv, WellFormed, CancelledRun;
    assert [] + [MessageWasCancelled, RunCancelled] == [MessageWasCancelled, RunCancelled];
  }

  /** Created, started, and the graph says that the run is completed: the log says so, and it is running. */
  lemma GraphUpdateHistory() returns (s: State)
    ensures Reached([CREATE1] + [START1], s) && WellFormed(s)
    ensures var s' := Exec(s, ChunkArrives(100, GraphUpdate(Some("completed"), None))).0;
            1 in s'.runs && s'.runs[1].status == Running && StatusAfter(Log(s', 1)) == Known(Completed)
  {
    s := StartedHistory();
    GraphUpdateLogs(s, 100, "completed", None);
    StatusOfUpdates(Log(s, 1), "completed", None);
    assert Said("completed") == Known(Completed);
    hide History, Inv, Project, StatusAfter, Updates, CREATE1, START1;
  }

  /** After its end something can still be logged of a run exactly while its task is in flight, which it
      is only after a cancellation. */
  lemma MoreCanBeLoggedIff(s: State, r: RunId)
    requires Inv(s) && r in s.runs && !IsActive(s.runs[r].status)
    ensures WellFormed(s)
    ensures (exists step :: Admissible(s, step) && Log(Exec(s, step).0, r) != Log(s, r)) <==> IsCarried(s, r)
    ensures IsCarried(s, r) ==> s.runs[r].status == Cancelled
  {
    InvIsWellFormed(s);
    CarriedStatus(s, r);
    hide Inv, WellFormed, Exec;
    if step :| Admissible(s, step) && Log(Exec(s, step).0, r) != Log(s, r) {
      FinishedLogGrowsIff(s, step, r);
    }
    if t :| InFlight(s, t, r) {
      assert Admissible(s, StreamEnds(t));
      FinishedLogGrowsIff(s, StreamEnds(t), r);
    }
  }

  /** Once a run is completed or failed, no history changes it or adds to its log. */
  lemma {:induction false} FinalLogStays(s: State, steps: seq<Step>, last: State, r: RunId)
    requires Inv(s) && History(s, steps, last) && r in s.runs
             && (s.runs[r].status == Completed || s.runs[r].status == Failed)
    ensures r in last.runs && last.runs[r] == s.runs[r] && Log(last, r) == Log(s, r)
    decreases |steps|
  {
    hide Inv, Exec, Admissible, WellFormed;
    if steps != [] {
      var next := Exec(s, steps[0]).0;
      StepKeepsInv(s, steps[0]);
      StepHasEffect(s, steps[0], r);
      FinishedStatusChangesIff(s, steps[0], r);
      FinishedLogGrowsIff(s, steps[0], r);
      assert next.runs[r] == s.runs[r];
      FinalLogStays(next, steps[1..], last, r);
    }
  }

  // ----- the events that close a log

  predicate IsFinal(e: Event) { e.RunCompleted? || e.RunFailed? }

  /** A completion or failure is the last event. */
  ghost predicate FinalLast(log: seq<Event>) {
    forall i :: 0 <= i < |log| - 1 ==> !IsFinal(log[i])
  }

  lemma EventsFinalLast(s: State, step: Step, r: RunId)
    requires r in s.runs
    ensures FinalLast(EffectOn(s, step, r).events)
  {
    hide Said;
  }

  lemma FinalLastGrows(log: seq<Event>, events: seq<Event>)
    requires FinalLast(log) && FinalLast(events) && (log != [] && events != [] ==> !IsFinal(log[|log| - 1]))
    ensures FinalLast(log + events)
  {}

  lemma EndsFinally(s: State, r: RunId)
    requires Inv(s) && r in s.runs && Log(s, r) != [] && IsFinal(Log(s, r)[|Log(s, r)| - 1])
    ensures s.runs[r].status == Completed || s.runs[r].status == Failed
  {
    RunOkParts(s, r);
  }

  lemma StepKeepsFinalLast(s: State, step: Step)
    requires Inv(s) && Admissible(s, step) && forall r :: r in s.runs ==> FinalLast(Log(s, r))
    ensures WellFormed(s) && forall r :: r in Exec(s, step).0.runs ==> FinalLast(Log(Exec(s, step).0, r))
  {
    InvIsWellFormed(s);
    var s' := Exec(s, step).0;
    forall r | r in s'.runs ensures FinalLast(Log(s', r)) {
      if r in s.runs {
        StepHasEffect(s, step, r);
        EventsFinalLast(s, step, r);
        hide Inv, Exec, EffectOn, FinalLast, WellFormed;
        if EffectOn(s, step, r).events != [] && Log(s, r) != [] && IsFinal(Log(s, r)[|Log(s, r)| - 1]) {
          EndsFinally(s, r);
          FinishedLogGrowsIff(s, step, r);
        }
        FinalLastGrows(Log(s, r), EffectOn(s, step, r).events);
      } else {
        NewRunHasNoLog(s, step, r);
      }
    }
  }

  lemma NewRunHasNoLog(s: State, step: Step, r: RunId)
    requires Inv(s) && WellFormed(s) && Admissible(s, step) && r !in s.runs && r in Exec(s, step).0.runs
    ensures Log(Exec(s, step).0, r) == []
  {
    if !step.CreateRun? {
      StepKeepsRuns(s, step);
    }
  }

  lemma StepKeepsRuns(s: State, step: Step)
    requires Inv(s) && WellFormed(s) && Admissible(s, step) && !step.CreateRun?
    ensures Exec(s, step).0.runs.Keys == s.runs.Keys
  {
    assert forall t :: t in s.tasks ==> s.tasks[t].run in s.runs;
    hide Inv, WellFormed, Started, Resumed, CancelledRun, Ended, Broken, Project;
    if Subject(s, step).Some? && Subject(s, step).value in s.runs {
      StepTouches(s, step, Subject(s, step).value);
    }
  }

  /** In every reachable state a completion or failure is the last thing in its log. */
  lemma {:induction false} HistoryKeepsFinalLast(s: State, steps: seq<Step>, last: State, r: RunId)
    requires Inv(s) && History(s, steps, last) && (forall q :: q in s.runs ==> FinalLast(Log(s, q))) && r in last.runs
    ensures FinalLast(Log(last, r))
    decreases |steps|
  {
    hide Inv, Exec, Admissible, WellFormed, FinalLast;
    if steps != [] {
      StepKeepsInv(s, steps[0]);
      StepKeepsFinalLast(s, steps[0]);
      HistoryKeepsFinalLast(Exec(s, steps[0]).0, steps[1..], last, r);
    }
  }

  lemma ReachableFinalLast(steps: seq<Step>, s: State, r: RunId)
    requires History(Empty, steps, s) && r in s.runs
    ensures FinalLast(Log(s, r)) && Inv(s)
  {
    EmptyInv();
    HistoryKeepsInv(Empty, steps, s);
    HistoryKeepsFinalLast(Empty, steps, s, r);
  }
}
