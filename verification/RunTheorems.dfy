/** The guarantees of the run machine over whole histories, and where they stop. */
module RunTheorems {
  import opened RunSpec
  import opened RunProofs
  import opened RunSteps

  lemma EmptyInv()
    ensures Inv(Empty)
  {}

  lemma InvIsWellFormed(s: State)
    requires Inv(s)
    ensures WellFormed(s)
  {}

  /** One admissible step: the invariant is kept and no finished run is revived. */
  lemma StepKeepsInv(s: State, step: Step)
    requires Inv(s) && Admissible(s, step)
    ensures WellFormed(s)
    ensures Inv(Exec(s, step).0) && NoRevival(s, Exec(s, step).0)
  {
    InvIsWellFormed(s);
    hide Inv, NoRevival, WellFormed, Started, Resumed, CancelledRun, Ended, Broken, Project;
    Stutter(s);
    match step {
      case CreateRun(r, thread, output) =>
        if FindActive(s, thread).None? {
          NewRunKeepsInv(s, r, thread, output);
        }
      case Start(t, r) =>
        if r in s.runs {
          StartKeepsInv(s, t, r);
        }
      case Resume(t, r, call, action) => ResumeStepKeepsInv(s, t, r, call, action);
      case Cancel(r) =>
        if r in s.runs && (s.runs[r].status == Queued || s.runs[r].status == Running) {
          CancelKeepsInv(s, r);
        }
      case _ => TaskStepKeepsInv(s, step);
    }
  }

  /** The steps of a task. */
  lemma TaskStepKeepsInv(s: State, step: Step)
    requires Inv(s) && WellFormed(s) && Admissible(s, step)
             && (step.ChunkArrives? || step.StreamEnds? || step.StreamFails?)
    ensures Inv(Exec(s, step).0) && NoRevival(s, Exec(s, step).0)
  {
    hide Inv, NoRevival, WellFormed, Ended, Broken, Project;
    Stutter(s);
    if step.task in s.tasks {
      var r := s.tasks[step.task].run;
      if step.ChunkArrives? {
        ChunkKeepsInv(s, step.task, r, step.chunk);
      } else if step.StreamEnds? {
        StreamEndKeepsInv(s, step.task, r);
      } else {
        StreamFailureKeepsInv(s, step.task, r, step.apiError, step.why);
      }
    }
  }

  lemma ResumeStepKeepsInv(s: State, t: TaskId, r: RunId, call: ToolCallId, action: string)
    requires Inv(s) && Admissible(s, Resume(t, r, call, action))
    ensures WellFormed(s)
    ensures var s' := Exec(s, Resume(t, r, call, action)).0; Inv(s') && NoRevival(s, s')
  {
    InvIsWellFormed(s);
    hide Inv, NoRevival, WellFormed, Resumed, Broken;
    Stutter(s);
    if r in s.runs && CallOf(s, call, r) && s.runs[r].status == RequiresAction
        && s.toolCalls[call].status == WaitingHuman {
      ResumeKeepsInv(s, t, r, call, action);
      RefusalKeepsInv(s, t, r, call, action);
    }
  }

  lemma Stutter(s: State)
    ensures NoRevival(s, s)
  {}

  lemma NoRevivalTwice(a: State, b: State, c: State)
    requires NoRevival(a, b) && NoRevival(b, c)
    ensures NoRevival(a, c)
  {}

  /** What follows the resume is undone by an ApiError, but the run has been set running. */
  lemma RefusalKeepsInv(s: State, t: TaskId, r: RunId, call: ToolCallId, action: string)
    requires Inv(s) && r in s.runs && s.runs[r].status == RequiresAction && t !in s.tasks && Waiting(s, call, r)
    ensures WellFormed(s) && Resumed(s, t, r, call, action).tasks[t].run in Resumed(s, t, r, call, action).runs
    ensures var s' := Broken(Resumed(s, t, r, call, action), t, true, "");
            Inv(s') && NoRevival(s, s') && s'.runs[r].status == Running && Waiting(s', call, r)
  {
    ResumeKeepsInv(s, t, r, call, action);
    var b := Resumed(s, t, r, call, action);
    hide Inv, Resumed, NoRevival;
    StreamFailureKeepsInv(b, t, r, true, "");
    NoRevivalTwice(s, b, Broken(b, t, true, ""));
  }

  lemma ChunkKeepsInv(s: State, t: TaskId, r: RunId, chunk: Chunk)
    requires Inv(s) && InFlight(s, t, r) && Admissible(s, ChunkArrives(t, chunk))
    ensures WellFormed(s) && r in s.runs
    ensures var s' := Exec(s, ChunkArrives(t, chunk)).0; Inv(s') && NoRevival(s, s')
  {
    TaskFacts(s, t, r);
    hide Inv, NoRevival, WellFormed, Ended, Project;
    if s.runs[r].status == Cancelled {
      StopKeepsInv(s, t, r);
    } else {
      ProjectKeepsInv(s, t, r, chunk);
    }
  }

  /** A chunk that is projected. */
  lemma ProjectKeepsInv(s: State, t: TaskId, r: RunId, chunk: Chunk)
    requires Inv(s) && InFlight(s, t, r) && Admissible(s, ChunkArrives(t, chunk)) && s.runs[r].status == Running
    ensures var s' := Project(s, t, chunk); Inv(s') && NoRevival(s, s')
  {
    if chunk.Interrupt? {
      InterruptChunkKeepsInv(s, t, r, chunk.call, chunk.allowed);
    } else if chunk.BadInterrupt? {
      StreamFailureKeepsInv(s, t, r, false, chunk.why);
      hide Inv, NoRevival, Broken;
    } else {
      LoggingChunkKeepsInv(s, t, r, chunk);
    }
  }

  /** A chunk that only logs, or does nothing. */
  lemma LoggingChunkKeepsInv(s: State, t: TaskId, r: RunId, chunk: Chunk)
    requires Inv(s) && InFlight(s, t, r) && Admissible(s, ChunkArrives(t, chunk)) && s.runs[r].status == Running
    requires !chunk.Interrupt? && !chunk.BadInterrupt?
    ensures var s' := Project(s, t, chunk); Inv(s') && NoRevival(s, s')
  {
    hide Inv, NoRevival;
    Stutter(s);
    match chunk {
      case Delta(text) =>
        if text != "" {
          LoggedKeepsInv(s, t, r, MessageDelta(text));
        }
      case GraphUpdate(said, message) =>
        if message.Some? && message.value != "" {
          QuietKeepsInv(s, t, r, MessageUpdated(message.value));
        }
      case ToolUpdate(name) => QuietKeepsInv(s, t, r, ToolCallProgress(name));
      case Progress => QuietKeepsInv(s, t, r, RunProgress);
      case Unknown =>
    }
  }

  lemma InterruptChunkKeepsInv(s: State, t: TaskId, r: RunId, call: ToolCallId, allowed: seq<string>)
    requires Inv(s) && InFlight(s, t, r) && Admissible(s, ChunkArrives(t, Interrupt(call, allowed)))
             && s.runs[r].status == Running
    ensures WellFormed(s) && r in s.runs
    ensures var s' := Project(s, t, Interrupt(call, allowed)); Inv(s') && NoRevival(s, s')
  {
    TaskFacts(s, t, r);
    hide Inv, NoRevival, WellFormed, Ended, Broken, Interrupted;
    if FindWaiting(s, r).Some? {
      StreamFailureKeepsInv(s, t, r, true, "当前运行已存在待处理人工操作");
    } else {
      OnlyStartedSeesNoCall(s, t, r);
      InterruptKeepsInv(s, t, r, call, allowed);
    }
  }

  lemma QuietKeepsInv(s: State, t: TaskId, r: RunId, e: Event)
    requires Inv(s) && InFlight(s, t, r) && s.runs[r].status == Running && !IsStatusEvent(e) && !e.MessageDelta?
    ensures Inv(Append(s, r, e)) && NoRevival(s, Append(s, r, e))
  {
    LoggedKeepsInv(s, t, r, e);
    var task := s.tasks[t];
    assert task.buffer + "" == task.buffer;
    assert s.tasks[t := task.(buffer := task.buffer + "")] == s.tasks;
    assert s.(tasks := s.tasks[t := task.(buffer := task.buffer + "")]) == s;
  }

  lemma OnlyStartedSeesNoCall(s: State, t: TaskId, r: RunId)
    requires Inv(s) && InFlight(s, t, r) && s.runs[r].status == Running && FindWaiting(s, r).None?
    ensures s.tasks[t].resumed.None?
  {
    if s.tasks[t].resumed.Some? {
      ResumedHasItsCall(s, t, r);
    }
  }

  // ----- histories

  /** Steps taken one after the other, each admissible where it is taken. */
  ghost predicate History(s: State, steps: seq<Step>, last: State)
    decreases |steps|
  {
    if steps == [] then last == s
    else WellFormed(s) && Admissible(s, steps[0]) && History(Exec(s, steps[0]).0, steps[1..], last)
  }

  lemma {:induction false} HistoryKeepsInv(s: State, steps: seq<Step>, last: State)
    requires Inv(s) && History(s, steps, last)
    ensures Inv(last) && NoRevival(s, last)
    decreases |steps|
  {
    hide Inv, NoRevival, Exec, Admissible;
    if steps == [] {
      Stutter(s);
    } else {
      StepKeepsInv(s, steps[0]);
      HistoryKeepsInv(Exec(s, steps[0]).0, steps[1..], last);
      NoRevivalTwice(s, Exec(s, steps[0]).0, last);
    }
  }

  /** In every reachable state: each run's log folds to its stored status and its output message has
      the matching status; a thread has at most one active run; a run has at most one waiting call,
      and exactly one when it requires action; a task in flight is on a running or cancelled run. */
  lemma ReachableStates(steps: seq<Step>, s: State, r: RunId, q: RunId, c: ToolCallId, d: ToolCallId, t: TaskId)
    requires History(Empty, steps, s) && r in s.runs && q in s.runs
    ensures StatusAfter(Log(s, r)) == Known(s.runs[r].status)
    ensures s.runs[r].output in s.messages && s.messages[s.runs[r].output].status == MessageFor(s.runs[r].status)
    ensures s.runs[r].thread == s.runs[q].thread && IsActive(s.runs[r].status) && IsActive(s.runs[q].status) ==> r == q
    ensures Waiting(s, c, r) && Waiting(s, d, r) ==> c == d
    ensures s.runs[r].status == RequiresAction ==> exists w :: Waiting(s, w, r)
    ensures InFlight(s, t, r) ==> s.runs[r].status == Running || s.runs[r].status == Cancelled
  {
    EmptyInv();
    HistoryKeepsInv(Empty, steps, s);
    assert RunOk(s, r);
    assert ActiveIn(s, r, s.runs[r].thread) <==> IsActive(s.runs[r].status);
    assert ActiveIn(s, q, s.runs[q].thread) <==> IsActive(s.runs[q].status);
  }

  /** A run that is over at some point of a history is over at every later point. */
  lemma OverStaysOver(before: seq<Step>, s: State, after: seq<Step>, last: State, r: RunId)
    requires History(Empty, before, s) && History(s, after, last)
    requires r in s.runs && !IsActive(s.runs[r].status)
    ensures r in last.runs && !IsActive(last.runs[r].status)
  {
    EmptyInv();
    HistoryKeepsInv(Empty, before, s);
    HistoryKeepsInv(s, after, last);
  }

  // ----- where it stops

  /** `start` does not look at the status of the run. It keeps the guarantees exactly when the run is
      still queued: on any other run it breaks one of them. */
  lemma StartIsSafeIffQueued(s: State, t: TaskId, r: RunId)
    requires Inv(s) && r in s.runs && t !in s.tasks
    ensures Inv(Started(s, t, r)) && NoRevival(s, Started(s, t, r)) <==> s.runs[r].status == Queued
  {
    if s.runs[r].status == Queued {
      StartKeepsInv(s, t, r);
    } else if !IsActive(s.runs[r].status) {
      StartRevives(s, t, r);
    } else {
      StartOnBusyRun(s, t, r);
    }
  }

  lemma StartRevives(s: State, t: TaskId, r: RunId)
    requires r in s.runs && !IsActive(s.runs[r].status)
    ensures !NoRevival(s, Started(s, t, r))
  {
    assert IsActive(Started(s, t, r).runs[r].status);
  }

  lemma StartOnBusyRun(s: State, t: TaskId, r: RunId)
    requires Inv(s) && r in s.runs && t !in s.tasks
    requires s.runs[r].status == RequiresAction || s.runs[r].status == Running
    ensures !Inv(Started(s, t, r))
  {
    var s' := Started(s, t, r);
    StartedFacts(s, t, r);
    assert RunOk(s, r);
    assert InFlight(s', t, r);
    if u :| InFlight(s, u, r) {
      assert InFlight(s', u, r);
      assert !OneTask(s', r);
    } else {
      var c :| Waiting(s, c, r);
      assert Waiting(s', c, r);
      assert !HoldsItsCall(s', s'.tasks[t]);
    }
    assert !TasksCoordinated(s', r);
  }

  const CREATE1 := CreateRun(1, 7, 10)
  const CREATE2 := CreateRun(2, 7, 20)

  lemma CreatedOne()
    ensures WellFormed(Empty) && Admissible(Empty, CREATE1)
    ensures Exec(Empty, CREATE1).0 ==
              State(map[1 := Run(7, 10, Queued)], map[10 := Message(Streaming, "")], map[], map[], map[])
  {
    assert FindActive(Empty, 7).None?;
  }

  lemma CancelledOne(s: State)
    requires s == State(map[1 := Run(7, 10, Queued)], map[10 := Message(Streaming, "")], map[], map[], map[])
    ensures WellFormed(s) && Admissible(s, Cancel(1))
    ensures Exec(s, Cancel(1)).0.runs == map[1 := Run(7, 10, Cancelled)]
    ensures Exec(s, Cancel(1)).0.messages.Keys == {10}
  {
    assert FindWaiting(s, 1).None?;
  }

  lemma CreatedTwo(s: State)
    requires WellFormed(s) && s.runs == map[1 := Run(7, 10, Cancelled)] && s.messages.Keys == {10}
    ensures Admissible(s, CREATE2)
    ensures Exec(s, CREATE2).0.runs == map[1 := Run(7, 10, Cancelled), 2 := Run(7, 20, Queued)]
  {
    assert FindActive(s, 7).None?;
  }

  /** A request cancelled before its background start: the history that shows it. The run is over,
      is started all the same, and a second run of the thread is active beside it. */
  lemma CancelledBeforeStart()
    ensures exists s ::
              && History(Empty, [CREATE1] + ([Cancel(1)] + [CREATE2]), s)
              && 1 in s.runs && s.runs[1].status == Cancelled
              && ActiveIn(Started(s, 100, 1), 1, 7) && ActiveIn(Started(s, 100, 1), 2, 7)
  {
    var s1 := Exec(Empty, CREATE1).0;
    EmptyInv();
    CreatedOne();
    StepKeepsInv(Empty, CREATE1);
    CancelledOne(s1);
    StepKeepsInv(s1, Cancel(1));
    var s2 := Exec(s1, Cancel(1)).0;
    InvIsWellFormed(s2);
    CreatedTwo(s2);
    var s3 := Exec(s2, CREATE2).0;
    hide Exec, History, Inv, WellFormed, Started, CREATE1, CREATE2;
    HistoryOne(s2, CREATE2, s3);
    HistoryMore(s1, Cancel(1), [CREATE2], s3);
    HistoryMore(Empty, CREATE1, [Cancel(1)] + [CREATE2], s3);
    TwoActive(s3);
  }

  lemma TwoActive(s: State)
    requires s.runs == map[1 := Run(7, 10, Cancelled), 2 := Run(7, 20, Queued)]
    ensures ActiveIn(Started(s, 100, 1), 1, 7) && ActiveIn(Started(s, 100, 1), 2, 7)
  {}

  lemma HistoryOne(s: State, step: Step, last: State)
    requires WellFormed(s) && Admissible(s, step) && Exec(s, step).0 == last
    ensures History(s, [step], last)
  {
    assert [step][1..] == [];
  }

  lemma HistoryMore(s: State, step: Step, rest: seq<Step>, last: State)
    requires WellFormed(s) && Admissible(s, step) && History(Exec(s, step).0, rest, last)
    ensures History(s, [step] + rest, last)
  {
    assert ([step] + rest)[1..] == rest;
  }

  /** A run update sent by the graph makes the log say something else than the stored status, at once
      and always, unless the code drops it: the text is empty or "running". */
  lemma GraphRunUpdateBreaksLog(s: State, t: TaskId, said: string, message: Option<string>)
    requires Inv(s) && t in s.tasks && s.runs[s.tasks[t].run].status == Running
    ensures var r := s.tasks[t].run;
            var s' := Exec(s, ChunkArrives(t, GraphUpdate(Some(said), message))).0;
            && r in s'.runs && s'.runs[r].status == Running
            && (StatusAfter(Log(s', r)) == Known(Running) <==> said == "" || said == "running")
  {
    var r := s.tasks[t].run;
    assert RunOk(s, r);
    assert StatusAfter(Log(s, r)) == Known(Running);
    GraphUpdateLogs(s, t, said, message);
    StatusOfUpdates(Log(s, r), said, message);
    hide Inv, RunOk, StatusAfter, Project;
  }

  lemma GraphUpdateLogs(s: State, t: TaskId, said: string, message: Option<string>)
    requires t in s.tasks && s.tasks[t].run in s.runs
    ensures var r := s.tasks[t].run;
            var s' := Project(s, t, GraphUpdate(Some(said), message));
            s'.runs == s.runs && Log(s', r) == Log(s, r) + Updates(said, message)
  {
    hide Said;
  }

  function Updates(said: string, message: Option<string>): seq<Event> {
    (if Forwarded(said) then [RunUpdated(Said(said))] else [])
      + if message.Some? && message.value != "" then [MessageUpdated(message.value)] else []
  }

  lemma StatusOfUpdates(log: seq<Event>, said: string, message: Option<string>)
    ensures StatusAfter(log + Updates(said, message)) == if Forwarded(said) then Said(said) else StatusAfter(log)
  {
    var e := RunUpdated(Said(said));
    var a := log + if Forwarded(said) then [e] else [];
    StatusOfAppend(log, e);
    OneUpdate(Said(said));
    hide StatusAfter, Said;
    assert a == if Forwarded(said) then log + [e] else log;
    if message.Some? && message.value != "" {
      StatusOfAppend(a, MessageUpdated(message.value));
      assert log + Updates(said, message) == a + [MessageUpdated(message.value)];
    } else {
      assert log + Updates(said, message) == a;
    }
  }

  lemma OneUpdate(said: SaidStatus)
    ensures StatusAfter([RunUpdated(said)]) == said
  {}

  // ----- stranded runs

  /** A running run that no task carries: its call still waits, but nothing will come of it. */
  ghost predicate Stranded(s: State, r: RunId) {
    r in s.runs && s.runs[r].status == Running && forall t :: !InFlight(s, t, r)
  }

  /** A second interrupt inside a resumed stream is refused, because the resumed call counts as
      waiting until its stream has ended; the ApiError is passed on and the run is stranded. */
  lemma SecondInterruptStrands(s: State, t: TaskId, call: ToolCallId, allowed: seq<string>)
    requires Inv(s) && t in s.tasks && s.tasks[t].resumed.Some? && s.runs[s.tasks[t].run].status == Running
    ensures var r := s.tasks[t].run;
            var s' := Exec(s, ChunkArrives(t, Interrupt(call, allowed))).0;
            s' == EndTask(s, t) && Stranded(s', r) && Waiting(s', s.tasks[t].resumed.value.0, r)
  {
    var r := s.tasks[t].run;
    TaskFacts(s, t, r);
    ResumedHasItsCall(s, t, r);
    NoTasksLeft(s, t, r);
  }

  /** The run a step is about. */
  function Subject(s: State, step: Step): Option<RunId> {
    match step
    case CreateRun(p, _, _) => Some(p)
    case Start(_, p) => Some(p)
    case Resume(_, p, _, _) => Some(p)
    case Cancel(p) => Some(p)
    case ChunkArrives(t, _) => if t in s.tasks then Some(s.tasks[t].run) else None
    case StreamEnds(t) => if t in s.tasks then Some(s.tasks[t].run) else None
    case StreamFails(t, _, _) => if t in s.tasks then Some(s.tasks[t].run) else None
  }

  /** Runs do not interfere: a step changes nothing about any run but its own. */
  lemma StepIsLocal(s: State, step: Step, r: RunId)
    requires Inv(s) && Admissible(s, step) && r in s.runs && Subject(s, step) != Some(r)
    ensures WellFormed(s) && Same(s, Exec(s, step).0, r)
  {
    InvIsWellFormed(s);
    var s' := Exec(s, step).0;
    if step.CreateRun? {
      NewRunElsewhere(s, step, r);
    } else if Subject(s, step).Some? && Subject(s, step).value in s.runs {
      var q := Subject(s, step).value;
      hide Inv, Same, WellFormed, Started, Resumed, CancelledRun, Ended, Broken, Project;
      NothingTouches(s, q);
      StepTouches(s, step, q);
      TouchedSame(s, s', q, r);
    }
  }

  lemma NewRunElsewhere(s: State, step: Step, r: RunId)
    requires WellFormed(s) && step.CreateRun? && Admissible(s, step) && r in s.runs && step.run != r
    ensures Same(s, Exec(s, step).0, r)
  {}

  lemma TouchedSame(s: State, s': State, q: RunId, r: RunId)
    requires WellFormed(s) && q in s.runs && Touches(s, s', q) && r in s.runs && r != q
    ensures Same(s, s', r)
  {}

  lemma StepTouches(s: State, step: Step, q: RunId)
    requires Inv(s) && WellFormed(s) && Admissible(s, step) && !step.CreateRun?
    requires Subject(s, step) == Some(q) && q in s.runs
    ensures Touches(s, Exec(s, step).0, q)
  {
    hide Inv, Touches, WellFormed, Started, Resumed, CancelledRun, Ended, Broken, Project;
    NothingTouches(s, q);
    match step {
      case Start(t, _) => StartedTouches(s, t, q);
      case Resume(t, _, call, action) =>
        ResumedTouches(s, t, q, call, action);
        if CallOf(s, call, q) {
          ResumedTask(s, t, q, call, action);
          BrokenTouches(s, Resumed(s, t, q, call, action), q, t, true, "");
        }
      case Cancel(_) => CancelledRunTouches(s, q, FindWaiting(s, q));
      case ChunkArrives(t, chunk) =>
        TaskFacts(s, t, q);
        EndedTouches(s, s, q, t, true);
        ProjectTouches(s, t, q, chunk);
      case StreamEnds(t) =>
        TaskFacts(s, t, q);
        EndedTouches(s, s, q, t, false);
      case StreamFails(t, apiError, why) =>
        TaskFacts(s, t, q);
        BrokenTouches(s, s, q, t, apiError, why);
    }
  }

  lemma ResumedTask(s: State, t: TaskId, r: RunId, call: ToolCallId, action: string)
    requires r in s.runs
    ensures var s' := Resumed(s, t, r, call, action);
            InFlight(s', t, r) && s'.tasks[t].resumed == Some((call, action)) && s'.toolCalls == s.toolCalls
                && r in s'.runs
  {}

  lemma ProjectTouches(s: State, t: TaskId, r: RunId, chunk: Chunk)
    requires Inv(s) && WellFormed(s) && r in s.runs && InFlight(s, t, r) && Admissible(s, ChunkArrives(t, chunk))
    ensures Touches(s, Project(s, t, chunk), r)
  {
    hide Inv, Touches, WellFormed, Append, Ended, Broken, Interrupted;
    TaskFacts(s, t, r);
    NothingTouches(s, r);
    match chunk {
      case Delta(text) =>
        var task := s.tasks[t];
        SetTaskTouches(s, r, t, task.(buffer := task.buffer + text));
        ThenAppend(s, s.(tasks := s.tasks[t := task.(buffer := task.buffer + text)]), r, MessageDelta(text));
      case Interrupt(call, allowed) =>
        if FindWaiting(s, r).Some? {
          BrokenTouches(s, s, r, t, true, "当前运行已存在待处理人工操作");
        } else {
          InterruptedTouches(s, r, call, allowed);
          InterruptedKeepsCalls(s, r, t, call, allowed);
          EndedTouches(s, Interrupted(s, r, call, allowed), r, t, true);
        }
      case BadInterrupt(why) => BrokenTouches(s, s, r, t, false, why);
      case GraphUpdate(_, message) =>
        if message.Some? {
          ThenAppend(s, s, r, MessageUpdated(message.value));
        }
      case ToolUpdate(name) => ThenAppend(s, s, r, ToolCallProgress(name));
      case Progress => ThenAppend(s, s, r, RunProgress);
      case Unknown =>
    }
  }

  lemma InterruptedKeepsCalls(s: State, r: RunId, t: TaskId, call: ToolCallId, allowed: seq<string>)
    requires call !in s.toolCalls && InFlight(s, t, r) && r in s.runs
    ensures var a := Interrupted(s, r, call, allowed);
            InFlight(a, t, r) && a.tasks[t] == s.tasks[t] && forall c :: CallOf(s, c, r) ==> CallOf(a, c, r)
  {}

  /** Nothing but cancelling gets a stranded run out: every other admissible step leaves it stranded,
      and a resume of its waiting call is answered with RunNotActive. */
  lemma OnlyCancelFreesStranded(s: State, step: Step, r: RunId)
    requires Inv(s) && Stranded(s, r) && Admissible(s, step)
    ensures WellFormed(s)
    ensures step == Cancel(r) || Stranded(Exec(s, step).0, r)
    ensures step.Resume? && step.run == r && Waiting(s, step.call, r) ==> Exec(s, step) == (s, RunNotActive)
  {
    InvIsWellFormed(s);
    if Subject(s, step) == Some(r) {
      match step {
        case ChunkArrives(t, _) => StrandedHasNoTask(s, t, r);
        case StreamEnds(t) => StrandedHasNoTask(s, t, r);
        case StreamFails(t, _, _) => StrandedHasNoTask(s, t, r);
        case _ =>
      }
    } else {
      StepIsLocal(s, step, r);
    }
  }

  lemma StrandedHasNoTask(s: State, t: TaskId, r: RunId)
    requires Stranded(s, r)
    ensures t in s.tasks ==> s.tasks[t].run != r
  {
    assert !InFlight(s, t, r);
  }
}
