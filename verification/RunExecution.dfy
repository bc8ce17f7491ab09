/** The executor and projector as they run: one object holding the repositories and the event log,
    updated in place. Each entry point is one step of RunSpec. */
module RunExecution {
  import opened RunSpec
  import Ordering
  import opened RunProofs
  import opened RunSteps
  import opened RunTheorems
  import opened RunEffects

  class RunSystem {
    var runs: map<RunId, Run>
    var messages: map<MessageId, Message>
    var toolCalls: map<ToolCallId, ToolCall>
    var eventsByRun: map<RunId, seq<Event>>
    var tasks: map<TaskId, Task>

    ghost function Model(): State
      reads this
    {
      State(runs, messages, toolCalls, eventsByRun, tasks)
    }

    constructor ()
      ensures Model() == Empty && Inv(Model())
    {
      runs, messages, toolCalls, eventsByRun, tasks := map[], map[], map[], map[], map[];
      new;
      EmptyInv();
    }

    // ----- repositories

    method FindActiveByThread(thread: ThreadId) returns (found: Option<RunId>)
      ensures found.Some? ==> ActiveIn(Model(), found.value, thread)
      ensures found.None? ==> forall r :: !ActiveIn(Model(), r, thread)
    {
      var left := runs.Keys;
      while left != {}
        invariant left <= runs.Keys
        invariant forall r :: r in runs && r !in left ==> !ActiveIn(Model(), r, thread)
        decreases left
      {
        var r := Ordering.Pick(left);
        left := left - {r};
        if runs[r].thread == thread && IsActive(runs[r].status) {
          return Some(r);
        }
      }
      found := None;
    }

    method FindWaitingByRun(r: RunId) returns (found: Option<ToolCallId>)
      ensures found.Some? ==> Waiting(Model(), found.value, r)
      ensures found.None? ==> forall c :: !Waiting(Model(), c, r)
    {
      var left := toolCalls.Keys;
      while left != {}
        invariant left <= toolCalls.Keys
        invariant forall c :: c in toolCalls && c !in left ==> !Waiting(Model(), c, r)
        decreases left
      {
        var c := Ordering.Pick(left);
        left := left - {c};
        if toolCalls[c].run == r && toolCalls[c].status == WaitingHuman {
          return Some(c);
        }
      }
      found := None;
    }

    method UpdateRunStatus(r: RunId, status: RunStatus)
      modifies this
      ensures Model() == SetStatus(old(Model()), r, status)
    {
      if r in runs {
        runs := runs[r := runs[r].(status := status)];
      }
    }

    method UpdateMessageStatus(m: MessageId, status: MessageStatus, content: Option<string>)
      modifies this
      ensures Model() == SetMessage(old(Model()), m, status, content)
    {
      if m in messages {
        var text := if content.Some? then content.value else messages[m].content;
        messages := messages[m := Message(status, text)];
      }
    }

    method UpdateCallStatus(c: ToolCallId, status: ToolCallStatus, output: Option<string>)
      modifies this
      ensures Model() == SetCall(old(Model()), c, status, output)
    {
      if c in toolCalls {
        toolCalls := toolCalls[c := toolCalls[c].(status := status, output := output)];
      }
    }

    /** The event store numbers events 1, 2, ... per run: the new one gets the length of the list. */
    method AppendEvent(r: RunId, e: Event) returns (sequenceNo: nat)
      modifies this
      ensures Model() == Append(old(Model()), r, e)
      ensures sequenceNo == |Log(Model(), r)|
    {
      var events := if r in eventsByRun then eventsByRun[r] else [];
      sequenceNo := |events| + 1;
      eventsByRun := eventsByRun[r := events + [e]];
    }

    // ----- projector

    /** The run is completed and its message done with the reply; the log of this run, and no other, gains
        the two events and agrees with both; nothing else changes. */
    method FinalizeRun(r: RunId, reply: string)
      requires r in runs && runs[r].output in messages
      modifies this
      ensures Model() == Finalized(old(Model()), r, reply)
      ensures Closed(old(Model()), Model(), r, Completed, Message(MessageDone, reply),
                [MessageCompleted(reply), RunCompleted])
      ensures LogAgrees(Model(), r)
    {
      FinalizedObserved(Model(), r, reply);
      UpdateMessageStatus(runs[r].output, MessageDone, Some(reply));
      var _ := AppendEvent(r, MessageCompleted(reply));
      UpdateRunStatus(r, Completed);
      var _ := AppendEvent(r, RunCompleted);
    }

    /** Likewise for a failed run, whose message says why. */
    method FailRun(r: RunId, why: string)
      requires r in runs && runs[r].output in messages
      modifies this
      ensures Model() == FailedRun(old(Model()), r, why)
      ensures Closed(old(Model()), Model(), r, Failed, Message(MessageError, FailureText(why)),
                [MessageFailed, RunFailed])
      ensures LogAgrees(Model(), r)
    {
      FailedObserved(Model(), r, why);
      UpdateMessageStatus(runs[r].output, MessageError, Some(FailureText(why)));
      var _ := AppendEvent(r, MessageFailed);
      UpdateRunStatus(r, Failed);
      var _ := AppendEvent(r, RunFailed);
    }

    method CancelRun(r: RunId)
      requires r in runs && Inv(Model())
      modifies this
      ensures Model() == CancelledRun(old(Model()), r, FindWaiting(old(Model()), r))
    {
      RunOkParts(Model(), r);
      var waiting := FindWaitingByRun(r);
      assert waiting == FindWaiting(Model(), r);
      if waiting.Some? {
        UpdateCallStatus(waiting.value, CallCancelled, None);
        var _ := AppendEvent(r, ToolCallUpdated(waiting.value));
      }
      UpdateRunStatus(r, Cancelled);
      UpdateMessageStatus(runs[r].output, MessageCancelled, None);
      var _ := AppendEvent(r, MessageWasCancelled);
      var _ := AppendEvent(r, RunCancelled);
    }

    /** The call is stored waiting and the run requires action; its log gains the call, the status and the
        request and then says that action is required; nothing else changes, and if no call of the run
        waited before, this one is now the only one. */
    method OnInterrupt(r: RunId, call: ToolCallId, allowed: seq<string>)
      requires r in runs
      modifies this
      ensures Model() == Interrupted(old(Model()), r, call, allowed)
      ensures Asks(old(Model()), Model(), r, call, allowed)
      ensures StatusAfter(Log(Model(), r)) == Known(RequiresAction)
      ensures call !in old(toolCalls) && (forall c :: !Waiting(old(Model()), c, r)) ==>
                forall c :: Waiting(Model(), c, r) <==> c == call
    {
      InterruptedObserved(Model(), r, call, allowed);
      toolCalls := toolCalls[call := ToolCall(r, WaitingHuman, allowed, None)];
      var _ := AppendEvent(r, ToolCallCreated(call));
      UpdateRunStatus(r, RequiresAction);
      var _ := AppendEvent(r, RunUpdated(Known(RequiresAction)));
      var _ := AppendEvent(r, ToolCallWaitingHuman(call));
    }

    /** The call no longer waits and records the action; the run's log gains its completion and says of the
        run what it said before; nothing else changes. */
    method OnToolCallCompleted(r: RunId, call: ToolCallId, action: string)
      modifies this
      ensures Model() == CallDone(old(Model()), r, call, action)
      ensures Settles(old(Model()), Model(), r, call, CallCompleted, Some(action), ToolCallCompleted(call))
    {
      CallDoneObserved(Model(), r, call, action);
      UpdateCallStatus(call, CallCompleted, Some(action));
      var _ := AppendEvent(r, ToolCallCompleted(call));
    }

    /** Likewise for a call that failed. */
    method OnToolCallFailed(r: RunId, call: ToolCallId)
      modifies this
      ensures Model() == CallBroken(old(Model()), r, call)
      ensures Settles(old(Model()), Model(), r, call, CallFailed, None, ToolCallFailed(call))
    {
      CallBrokenObserved(Model(), r, call);
      UpdateCallStatus(call, CallFailed, None);
      var _ := AppendEvent(r, ToolCallFailed(call));
    }

    // ----- how a task leaves its stream

    /** The task is gone, with the effect of leaving; and where its run was cancelled or its stream went to
        its end, the invariant is kept. */
    method Leave(t: TaskId, stopped: bool)
      requires t in tasks && tasks[t].run in runs && runs[tasks[t].run].output in messages
               && OneTask(Model(), tasks[t].run)
      modifies this
      ensures Model() == Ended(old(Model()), t, stopped) && t !in tasks
      ensures Has(old(Model()), Model(), old(tasks[t].run),
                Leaving(old(runs[tasks[t].run].status), old(tasks[t]), stopped))
      ensures Inv(old(Model())) && (!stopped || old(runs[tasks[t].run].status) == Cancelled) ==> Inv(Model())
    {
      LeavingObserved(Model(), t, stopped);
      hide Inv, Has;
      var task := tasks[t];
      if task.resumed.Some? {
        OnToolCallCompleted(task.run, task.resumed.value.0, task.resumed.value.1);
      }
      if !stopped {
        FinalizeRun(task.run, task.buffer);
      }
      tasks := tasks - {t};
    }

    /** The task is gone, with the effect of raising, and the invariant is kept. */
    method Raise(t: TaskId, apiError: bool, why: string)
      requires t in tasks && tasks[t].run in runs && runs[tasks[t].run].output in messages
               && OneTask(Model(), tasks[t].run)
      modifies this
      ensures Model() == Broken(old(Model()), t, apiError, why) && t !in tasks
      ensures Has(old(Model()), Model(), old(tasks[t].run),
                Raising(old(runs[tasks[t].run].status), old(tasks[t]), apiError))
      ensures Inv(old(Model())) ==> Inv(Model())
    {
      RaisingObserved(Model(), t, apiError, why);
      hide Inv, Has;
      var task := tasks[t];
      if task.resumed.None? {
        FailRun(task.run, why);
      } else if !apiError {
        OnToolCallFailed(task.run, task.resumed.value.0);
        FailRun(task.run, why);
      }
      tasks := tasks - {t};
    }

    // ----- entry points

    method NewRun(r: RunId, thread: ThreadId, output: MessageId) returns (reply: Reply)
      requires Inv(Model())
      modifies this
      ensures (Model(), reply) == Exec(old(Model()), CreateRun(r, thread, output))
      ensures Admissible(old(Model()), CreateRun(r, thread, output)) ==> Inv(Model())
    {
      if Admissible(Model(), CreateRun(r, thread, output)) {
        StepKeepsInv(Model(), CreateRun(r, thread, output));
      }
      var active := FindActiveByThread(thread);
      assert active == FindActive(Model(), thread);
      if active.Some? {
        return ActiveRunExists(active.value);
      }
      messages := messages[output := Message(Streaming, "")];
      runs := runs[r := Run(thread, output, Queued)];
      reply := Accepted;
    }

    method StartRun(t: TaskId, r: RunId) returns (reply: Reply)
      requires Inv(Model())
      modifies this
      ensures (Model(), reply) == Exec(old(Model()), Start(t, r))
      ensures Admissible(old(Model()), Start(t, r)) ==> Inv(Model())
    {
      if Admissible(Model(), Start(t, r)) {
        StepKeepsInv(Model(), Start(t, r));
      }
      if r !in runs {
        return RunNotFound;
      }
      var _ := AppendEvent(r, RunCreated(runs[r].status));
      var _ := AppendEvent(r, MessageCreated);
      UpdateRunStatus(r, Running);
      var n := AppendEvent(r, RunUpdated(Known(Running)));
      tasks := tasks[t := Task(r, None, "", n)];
      reply := Accepted;
    }

    method ResumeRun(t: TaskId, r: RunId, call: ToolCallId, action: string) returns (reply: Reply)
      requires Inv(Model())
      modifies this
      ensures (Model(), reply) == Exec(old(Model()), Resume(t, r, call, action))
      ensures Admissible(old(Model()), Resume(t, r, call, action)) ==> Inv(Model())
    {
      if Admissible(Model(), Resume(t, r, call, action)) {
        StepKeepsInv(Model(), Resume(t, r, call, action));
      }
      if r !in runs {
        return RunNotFound;
      }
      if call !in toolCalls || toolCalls[call].run != r {
        return ToolCallNotFound;
      }
      if runs[r].status != RequiresAction {
        return if IdempotentResume(runs[r], toolCalls[call], action) then AlreadyDone else RunNotActive;
      }
      if toolCalls[call].status != WaitingHuman {
        return if IdempotentResume(runs[r], toolCalls[call], action) then AlreadyDone else ToolCallNotWaitingHuman;
      }
      ResumedOneTask(Model(), t, r, call, action);
      UpdateRunStatus(r, Running);
      var n := AppendEvent(r, RunUpdated(Known(Running)));
      tasks := tasks[t := Task(r, Some((call, action)), "", n)];
      assert Model() == Resumed(old(Model()), t, r, call, action);
      hide Has, Inv, OneTask, Raising;
      if ParsedAction(action) !in toolCalls[call].allowed {
        Raise(t, true, "");
        return DecisionNotAllowed;
      }
      reply := Accepted;
    }

    method CancelRequested(r: RunId) returns (reply: Reply)
      requires Inv(Model())
      modifies this
      ensures (Model(), reply) == Exec(old(Model()), Cancel(r))
      ensures Inv(Model())
    {
      StepKeepsInv(Model(), Cancel(r));
      if r !in runs {
        return RunNotFound;
      }
      if runs[r].status == Cancelled {
        return AlreadyDone;
      }
      if runs[r].status == RequiresAction {
        return RequiresActionNotCancellable;
      }
      if runs[r].status != Queued && runs[r].status != Running {
        return RunNotActive;
      }
      CancelRun(r);
      reply := Accepted;
    }

    method ChunkArrived(t: TaskId, chunk: Chunk) returns (reply: Reply)
      requires Inv(Model())
      modifies this
      ensures (Model(), reply) == Exec(old(Model()), ChunkArrives(t, chunk))
      ensures Admissible(old(Model()), ChunkArrives(t, chunk)) ==> Inv(Model())
    {
      if Admissible(Model(), ChunkArrives(t, chunk)) {
        StepKeepsInv(Model(), ChunkArrives(t, chunk));
      }
      if t !in tasks {
        return NoSuchTask;
      }
      TaskFacts(Model(), t, tasks[t].run);
      if runs[tasks[t].run].status == Cancelled {
        Leave(t, true);
      } else {
        ProjectChunk(t, chunk);
      }
      reply := Accepted;
    }

    /** An interrupt is refused while a call of the run waits; otherwise the run asks and its task leaves. */
    method InterruptArrived(t: TaskId, call: ToolCallId, allowed: seq<string>)
      requires t in tasks && tasks[t].run in runs && runs[tasks[t].run].output in messages
               && OneTask(Model(), tasks[t].run)
      modifies this
      ensures Model() == Project(old(Model()), t, Interrupt(call, allowed))
    {
      hide Inv, Has, OneTask, Ended, Broken, Interrupted, Leaving, Raising, Asks, StatusAfter;
      var r := tasks[t].run;
      var waiting := FindWaitingByRun(r);
      assert waiting.Some? <==> FindWaiting(Model(), r).Some?;
      if waiting.Some? {
        Raise(t, true, "当前运行已存在待处理人工操作");
      } else {
        InterruptedTasks(Model(), r, call, allowed);
        OnInterrupt(r, call, allowed);
        Leave(t, true);
      }
    }

    /** The run changes as the table of effects says for the chunk, and an admissible chunk keeps the
        invariant. */
    method ProjectChunk(t: TaskId, chunk: Chunk)
      requires Inv(Model()) && t in tasks && tasks[t].run in runs && runs[tasks[t].run].status == Running
      modifies this
      ensures Model() == Project(old(Model()), t, chunk)
      ensures Has(old(Model()), Model(), old(tasks[t].run), OfChunk(old(tasks[t]), chunk))
      ensures Admissible(old(Model()), ChunkArrives(t, chunk)) ==> Inv(Model())
    {
      hide Inv, WellFormed, Has, OneTask, Ended, Broken, Interrupted, OfChunk, Admissible, Said, Raising, FindWaiting;
      var task := tasks[t];
      var r := task.run;
      ProjectObserved(Model(), t, r, chunk);
      match chunk {
        case Delta(text) =>
          if text != "" {
            tasks := tasks[t := task.(buffer := task.buffer + text)];
            var _ := AppendEvent(r, MessageDelta(text));
          }
        case Interrupt(call, allowed) =>
          InterruptArrived(t, call, allowed);
        case BadInterrupt(why) => Raise(t, false, why);
        case GraphUpdate(said, message) =>
          if said.Some? && Forwarded(said.value) {
            var _ := AppendEvent(r, RunUpdated(Said(said.value)));
          }
          if message.Some? && message.value != "" {
            var _ := AppendEvent(r, MessageUpdated(message.value));
          }
        case ToolUpdate(name) => var _ := AppendEvent(r, ToolCallProgress(name));
        case Progress => var _ := AppendEvent(r, RunProgress);
        case Unknown =>
      }
    }

    method StreamEnded(t: TaskId) returns (reply: Reply)
      requires Inv(Model())
      modifies this
      ensures (Model(), reply) == Exec(old(Model()), StreamEnds(t))
      ensures Inv(Model())
    {
      StepKeepsInv(Model(), StreamEnds(t));
      if t !in tasks {
        return NoSuchTask;
      }
      TaskFacts(Model(), t, tasks[t].run);
      Leave(t, false);
      reply := Accepted;
    }

    method StreamFailed(t: TaskId, apiError: bool, why: string) returns (reply: Reply)
      requires Inv(Model())
      modifies this
      ensures (Model(), reply) == Exec(old(Model()), StreamFails(t, apiError, why))
      ensures Inv(Model())
    {
      StepKeepsInv(Model(), StreamFails(t, apiError, why));
      if t !in tasks {
        return NoSuchTask;
      }
      TaskFacts(Model(), t, tasks[t].run);
      Raise(t, apiError, why);
      reply := Accepted;
    }
  }
}
