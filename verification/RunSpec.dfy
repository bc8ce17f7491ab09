/** Agent runs as a state machine. A step is one stretch of the event loop between two suspension
    points; the only suspension inside a run is waiting for the next chunk of the runtime stream.
    Steps may interleave freely between runs, tasks and requests. */
module RunSpec {

  type RunId = int
  type ThreadId = int
  type MessageId = int
  type ToolCallId = int
  type TaskId = int

  datatype Option<T> = None | Some(value: T)

  datatype RunStatus = Queued | Running | RequiresAction | Completed | Failed | Cancelled

  predicate IsActive(s: RunStatus) { s.Queued? || s.Running? || s.RequiresAction? }

  datatype MessageStatus = Streaming | MessageDone | MessageError | MessageCancelled

  datatype ToolCallStatus = WaitingHuman | CallCompleted | CallFailed | CallCancelled

  datatype Run = Run(thread: ThreadId, output: MessageId, status: RunStatus)

  datatype Message = Message(status: MessageStatus, content: string)

  /** `output` is the action recorded when the call completes. */
  datatype ToolCall = ToolCall(run: RunId, status: ToolCallStatus, allowed: seq<string>, output: Option<string>)

  /** A status named in a logged event: one of ours, or any text the graph chose to send. */
  datatype SaidStatus = Known(status: RunStatus) | Other(text: string)

  datatype Event =
    | RunCreated(status: RunStatus)
    | RunUpdated(said: SaidStatus)
    | RunCompleted
    | RunFailed
    | RunCancelled
    | RunProgress
    | MessageCreated
    | MessageDelta(text: string)
    | MessageUpdated(text: string)
    | MessageCompleted(text: string)
    | MessageFailed
    | MessageWasCancelled
    | ToolCallCreated(call: ToolCallId)
    | ToolCallUpdated(call: ToolCallId)
    | ToolCallWaitingHuman(call: ToolCallId)
    | ToolCallProgress(name: string)
    | ToolCallCompleted(call: ToolCallId)
    | ToolCallFailed(call: ToolCallId)

  /** A suspended `start` or `resume`: the call it resumed with the requested action, if any, the text
      of its message buffer, and how long the log was when it began. */
  datatype Task = Task(run: RunId, resumed: Option<(ToolCallId, string)>, buffer: string, since: nat)

  datatype State = State(
    runs: map<RunId, Run>,
    messages: map<MessageId, Message>,
    toolCalls: map<ToolCallId, ToolCall>,
    log: map<RunId, seq<Event>>,
    tasks: map<TaskId, Task>)

  const Empty := State(map[], map[], map[], map[], map[])

  /** A chunk of the runtime stream, after the extraction helpers. */
  datatype Chunk =
    | Delta(text: string)
    | Interrupt(call: ToolCallId, allowed: seq<string>)
    | BadInterrupt(why: string)
    | GraphUpdate(run: Option<string>, message: Option<string>)
    | ToolUpdate(name: string)
    | Progress
    | Unknown

  datatype Step =
    | CreateRun(run: RunId, thread: ThreadId, output: MessageId)
    | Start(task: TaskId, run: RunId)
    | Resume(task: TaskId, run: RunId, call: ToolCallId, action: string)
    | Cancel(run: RunId)
    | ChunkArrives(task: TaskId, chunk: Chunk)
    | StreamEnds(task: TaskId)
    | StreamFails(task: TaskId, apiError: bool, why: string)

  datatype Reply =
    | Accepted
    | AlreadyDone                 // repeated cancel, or a resume already carried out
    | ActiveRunExists(run: RunId)
    | RunNotFound
    | ToolCallNotFound
    | RunNotActive
    | ToolCallNotWaitingHuman
    | DecisionNotAllowed
    | RequiresActionNotCancellable
    | NoSuchTask

  // ----- repositories and log

  function Log(s: State, r: RunId): seq<Event> {
    if r in s.log then s.log[r] else []
  }

  function Append(s: State, r: RunId, e: Event): State {
    s.(log := s.log[r := Log(s, r) + [e]])
  }

  function SetStatus(s: State, r: RunId, status: RunStatus): State {
    if r in s.runs then s.(runs := s.runs[r := s.runs[r].(status := status)]) else s
  }

  function SetMessage(s: State, m: MessageId, status: MessageStatus, content: Option<string>): State {
    if m in s.messages then
      s.(messages := s.messages[m := Message(status, if content.Some? then content.value else s.messages[m].content)])
    else s
  }

  function SetCall(s: State, c: ToolCallId, status: ToolCallStatus, output: Option<string>): State {
    if c in s.toolCalls then
      s.(toolCalls := s.toolCalls[c := s.toolCalls[c].(status := status, output := output)])
    else s
  }

  function EndTask(s: State, t: TaskId): State {
    s.(tasks := s.tasks - {t})
  }

  ghost predicate CallOf(s: State, c: ToolCallId, r: RunId) {
    c in s.toolCalls && s.toolCalls[c].run == r
  }

  ghost predicate Waiting(s: State, c: ToolCallId, r: RunId) {
    CallOf(s, c, r) && s.toolCalls[c].status == WaitingHuman
  }

  /** A waiting call of the run; which one does not matter when there is at most one. */
  ghost function FindWaiting(s: State, r: RunId): (found: Option<ToolCallId>)
    ensures found.Some? ==> Waiting(s, found.value, r)
    ensures found.None? ==> forall c :: !Waiting(s, c, r)
  {
    if exists c :: Waiting(s, c, r) then var c :| Waiting(s, c, r); Some(c) else None
  }

  /** Some active run of the thread, if there is one. */
  ghost function FindActive(s: State, thread: ThreadId): (found: Option<RunId>)
    ensures found.Some? ==> ActiveIn(s, found.value, thread)
    ensures found.None? ==> forall r :: !ActiveIn(s, r, thread)
  {
    if exists r :: ActiveIn(s, r, thread) then var r :| ActiveIn(s, r, thread); Some(r) else None
  }

  // ----- projector

  function Finalized(s: State, r: RunId, reply: string): State
    requires r in s.runs
  {
    var a := SetMessage(s, s.runs[r].output, MessageDone, Some(reply));
    var b := Append(a, r, MessageCompleted(reply));
    var c := SetStatus(b, r, Completed);
    Append(c, r, RunCompleted)
  }

  /** `str(exc) or ...` */
  function FailureText(why: string): string {
    if why == "" then "运行失败" else why
  }

  function FailedRun(s: State, r: RunId, why: string): State
    requires r in s.runs
  {
    var a := SetMessage(s, s.runs[r].output, MessageError, Some(FailureText(why)));
    var b := Append(a, r, MessageFailed);
    var c := SetStatus(b, r, Failed);
    Append(c, r, RunFailed)
  }

  /** The first part of cancel_run: the waiting call that was found, if any, is cancelled. */
  function CallWithdrawn(s: State, r: RunId, waiting: Option<ToolCallId>): State {
    if waiting.None? then s
    else Append(SetCall(s, waiting.value, CallCancelled, None), r, ToolCallUpdated(waiting.value))
  }

  function CancelledRun(s: State, r: RunId, waiting: Option<ToolCallId>): State
    requires r in s.runs
  {
    var a := CallWithdrawn(s, r, waiting);
    var b := SetStatus(a, r, Cancelled);
    var c := SetMessage(b, s.runs[r].output, MessageCancelled, None);
    Append(Append(c, r, MessageWasCancelled), r, RunCancelled)
  }

  /** on_tool_call_started and on_tool_call_requires_human. */
  function Interrupted(s: State, r: RunId, call: ToolCallId, allowed: seq<string>): State {
    var a := s.(toolCalls := s.toolCalls[call := ToolCall(r, WaitingHuman, allowed, None)]);
    var b := Append(a, r, ToolCallCreated(call));
    var c := SetStatus(b, r, RequiresAction);
    Append(Append(c, r, RunUpdated(Known(RequiresAction))), r, ToolCallWaitingHuman(call))
  }

  function CallDone(s: State, r: RunId, call: ToolCallId, action: string): State {
    Append(SetCall(s, call, CallCompleted, Some(action)), r, ToolCallCompleted(call))
  }

  function CallBroken(s: State, r: RunId, call: ToolCallId): State {
    Append(SetCall(s, call, CallFailed, None), r, ToolCallFailed(call))
  }

  // ----- executor

  /** How a task leaves its stream normally: a resumed call is completed first; a stream that was
      neither interrupted nor stopped then finalizes the run, without looking at its status. */
  function Ended(s: State, t: TaskId, stopped: bool): State
    requires t in s.tasks && s.tasks[t].run in s.runs
  {
    var task := s.tasks[t];
    var a := if task.resumed.Some? then CallDone(s, task.run, task.resumed.value.0, task.resumed.value.1) else s;
    EndTask(if stopped then a else Finalized(a, task.run, task.buffer), t)
  }

  /** How a task leaves on an exception: `start` fails the run on any; `resume` passes an ApiError on
      and changes nothing. */
  function Broken(s: State, t: TaskId, apiError: bool, why: string): State
    requires t in s.tasks && s.tasks[t].run in s.runs
  {
    var task := s.tasks[t];
    EndTask(
      if task.resumed.None? then FailedRun(s, task.run, why)
      else if apiError then s
      else FailedRun(CallBroken(s, task.run, task.resumed.value.0), task.run, why), t)
  }

  /** The run updates of the graph that are passed on: the code drops an empty status and "running". */
  predicate Forwarded(text: string) { text != "" && text != "running" }

  /** The status a text names. */
  function Said(text: string): SaidStatus {
    if text == "queued" then Known(Queued)
    else if text == "running" then Known(Running)
    else if text == "requires_action" then Known(RequiresAction)
    else if text == "completed" then Known(Completed)
    else if text == "failed" then Known(Failed)
    else if text == "cancelled" then Known(Cancelled)
    else Other(text)
  }

  ghost function Project(s: State, t: TaskId, chunk: Chunk): State
    requires t in s.tasks && s.tasks[t].run in s.runs
  {
    var task := s.tasks[t];
    var r := task.run;
    match chunk
    case Delta(text) =>
      if text == "" then s
      else Append(s.(tasks := s.tasks[t := task.(buffer := task.buffer + text)]), r, MessageDelta(text))
    case Interrupt(call, allowed) =>
      if FindWaiting(s, r).Some? then Broken(s, t, true, "当前运行已存在待处理人工操作")
      else Ended(Interrupted(s, r, call, allowed), t, true)
    case BadInterrupt(why) => Broken(s, t, false, why)
    case GraphUpdate(said, message) =>
      var a := if said.Some? && Forwarded(said.value) then Append(s, r, RunUpdated(Said(said.value))) else s;
      if message.Some? && message.value != "" then Append(a, r, MessageUpdated(message.value)) else a
    case ToolUpdate(name) => Append(s, r, ToolCallProgress(name))
    case Progress => Append(s, r, RunProgress)
    case Unknown => s
  }

  /** The action a resume payload is read as. */
  function ParsedAction(action: string): string {
    if action == "approve" || action == "edit" then action else "reject"
  }

  /** _is_idempotent_resume; the caller has found the run not requiring action or the call not waiting. */
  predicate IdempotentResume(run: Run, call: ToolCall, action: string) {
    call.status == CallCompleted && action != "" && call.output == Some(action) && run.status != RequiresAction
  }

  function Started(s: State, t: TaskId, r: RunId): State
    requires r in s.runs
  {
    var a := Append(Append(s, r, RunCreated(s.runs[r].status)), r, MessageCreated);
    var b := Append(SetStatus(a, r, Running), r, RunUpdated(Known(Running)));
    b.(tasks := b.tasks[t := Task(r, None, "", |Log(b, r)|)])
  }

  function Resumed(s: State, t: TaskId, r: RunId, call: ToolCallId, action: string): State
    requires r in s.runs
  {
    var a := Append(SetStatus(s, r, Running), r, RunUpdated(Known(Running)));
    a.(tasks := a.tasks[t := Task(r, Some((call, action)), "", |Log(a, r)|)])
  }

  ghost function Exec(s: State, step: Step): (State, Reply)
    requires WellFormed(s)
  {
    match step
    case CreateRun(r, thread, output) =>
      var active := FindActive(s, thread);
      if active.Some? then (s, ActiveRunExists(active.value))
      else (s.(runs := s.runs[r := Run(thread, output, Queued)],
               messages := s.messages[output := Message(Streaming, "")]), Accepted)
    case Start(t, r) =>
      if r !in s.runs then (s, RunNotFound) else (Started(s, t, r), Accepted)
    case Resume(t, r, call, action) =>
      if r !in s.runs then (s, RunNotFound)
      else if call !in s.toolCalls || s.toolCalls[call].run != r then (s, ToolCallNotFound)
      else if s.runs[r].status != RequiresAction then
        (s, if IdempotentResume(s.runs[r], s.toolCalls[call], action) then AlreadyDone else RunNotActive)
      else if s.toolCalls[call].status != WaitingHuman then
        (s, if IdempotentResume(s.runs[r], s.toolCalls[call], action) then AlreadyDone else ToolCallNotWaitingHuman)
      else
        var next := Resumed(s, t, r, call, action);
        if ParsedAction(action) !in s.toolCalls[call].allowed then (Broken(next, t, true, ""), DecisionNotAllowed)
        else (next, Accepted)
    case Cancel(r) =>
      if r !in s.runs then (s, RunNotFound)
      else if s.runs[r].status == Cancelled then (s, AlreadyDone)
      else if s.runs[r].status == RequiresAction then (s, RequiresActionNotCancellable)
      else if s.runs[r].status != Queued && s.runs[r].status != Running then (s, RunNotActive)
      else (CancelledRun(s, r, FindWaiting(s, r)), Accepted)
    case ChunkArrives(t, chunk) =>
      if t !in s.tasks then (s, NoSuchTask)
      else if s.runs[s.tasks[t].run].status == Cancelled then (Ended(s, t, true), Accepted)
      else (Project(s, t, chunk), Accepted)
    case StreamEnds(t) =>
      if t !in s.tasks then (s, NoSuchTask) else (Ended(s, t, false), Accepted)
    case StreamFails(t, apiError, why) =>
      if t !in s.tasks then (s, NoSuchTask) else (Broken(s, t, apiError, why), Accepted)
  }

  // ----- what the log says

  function StatusAfter(log: seq<Event>): SaidStatus {
    if log == [] then Known(Queued)
    else
      match log[|log| - 1]
      case RunCreated(status) => Known(status)
      case RunUpdated(said) => said
      case RunCompleted => Known(Completed)
      case RunFailed => Known(Failed)
      case RunCancelled => Known(Cancelled)
      case _ => StatusAfter(log[..|log| - 1])
  }

  /** The text streamed in a stretch of log. */
  function Deltas(log: seq<Event>): string {
    if log == [] then ""
    else
      var last := log[|log| - 1];
      Deltas(log[..|log| - 1]) + if last.MessageDelta? then last.text else ""
  }

  // ----- invariants

  /** References resolve and runs do not share output messages. */
  ghost predicate WellFormed(s: State) {
    && (forall r :: r in s.runs ==> s.runs[r].output in s.messages)
    && (forall r, q :: r in s.runs && q in s.runs && s.runs[r].output == s.runs[q].output ==> r == q)
    && (forall c :: c in s.toolCalls ==> s.toolCalls[c].run in s.runs)
    && (forall t :: t in s.tasks ==> s.tasks[t].run in s.runs)
    && (forall r :: r in s.log ==> r in s.runs)
  }

  ghost predicate InFlight(s: State, t: TaskId, r: RunId) {
    t in s.tasks && s.tasks[t].run == r
  }

  function MessageFor(status: RunStatus): MessageStatus {
    match status
    case Completed => MessageDone
    case Failed => MessageError
    case Cancelled => MessageCancelled
    case _ => Streaming
  }

  /** The last two events of a completed run: its reply, then its completion. */
  ghost predicate EndsWithReply(log: seq<Event>, reply: string) {
    |log| >= 2 && log[|log| - 2] == MessageCompleted(reply) && log[|log| - 1] == RunCompleted
  }

  /** The log and the read model agree on a run. */
  ghost predicate LogAgrees(s: State, r: RunId)
    requires r in s.runs && s.runs[r].output in s.messages
  {
    var run := s.runs[r];
    && StatusAfter(Log(s, r)) == Known(run.status)
    && s.messages[run.output].status == MessageFor(run.status)
    && (run.status == Completed ==> EndsWithReply(Log(s, r), s.messages[run.output].content))
  }

  /** Waiting calls: at most one, exactly one when action is required, none once the run is over. */
  ghost predicate CallsCoordinated(s: State, r: RunId)
    requires r in s.runs
  {
    var status := s.runs[r].status;
    && (forall c, d :: Waiting(s, c, r) && Waiting(s, d, r) ==> c == d)
    && (forall c :: Waiting(s, c, r) ==> status == RequiresAction || status == Running)
    && (status == RequiresAction ==> exists c :: Waiting(s, c, r))
  }

  /** Tasks: at most one, and only on a running or cancelled run. While the run is running, a started
      task has no waiting call and a resumed one still has the call it resumed. */
  ghost predicate TasksCoordinated(s: State, r: RunId)
    requires r in s.runs
  {
    var status := s.runs[r].status;
    && OneTask(s, r)
    && (forall t :: InFlight(s, t, r) ==> status == Running || status == Cancelled)
    && (forall t :: InFlight(s, t, r) && status == Running ==> HoldsItsCall(s, s.tasks[t]))
    && (forall t :: InFlight(s, t, r) && s.tasks[t].resumed.Some? ==> CallOf(s, s.tasks[t].resumed.value.0, r))
  }

  ghost predicate OneTask(s: State, r: RunId) {
    forall t, u :: InFlight(s, t, r) && InFlight(s, u, r) ==> t == u
  }

  ghost predicate HoldsItsCall(s: State, task: Task) {
    match task.resumed
    case None => forall c :: !Waiting(s, c, task.run)
    case Some(p) => Waiting(s, p.0, task.run)
  }

  /** A task's buffer is the text logged since it began. */
  ghost predicate Buffered(s: State, r: RunId) {
    forall t :: InFlight(s, t, r) ==>
      s.tasks[t].since <= |Log(s, r)| && s.tasks[t].buffer == Deltas(Log(s, r)[s.tasks[t].since..])
  }

  /** A running run is carried by a task, or was left behind with its call still waiting. */
  ghost predicate Carried(s: State, r: RunId)
    requires r in s.runs
  {
    s.runs[r].status == Running ==> (exists t :: InFlight(s, t, r)) || (exists c :: Waiting(s, c, r))
  }

  ghost predicate RunOk(s: State, r: RunId)
    requires r in s.runs && s.runs[r].output in s.messages
  {
    LogAgrees(s, r) && CallsCoordinated(s, r) && TasksCoordinated(s, r) && Buffered(s, r) && Carried(s, r)
  }

  ghost predicate ActiveIn(s: State, r: RunId, thread: ThreadId) {
    r in s.runs && s.runs[r].thread == thread && IsActive(s.runs[r].status)
  }

  /** At most one active run per thread. */
  ghost predicate OneActivePerThread(s: State) {
    forall r, q, thread :: ActiveIn(s, r, thread) && ActiveIn(s, q, thread) ==> r == q
  }

  ghost predicate Inv(s: State) {
    && WellFormed(s)
    && OneActivePerThread(s)
    && (forall r :: r in s.runs ==> RunOk(s, r))
  }

  /** The environment's part: fresh ids, `start` taken once on a queued run, and a graph that does
      not have run updates passed on into the log. */
  ghost predicate Admissible(s: State, step: Step) {
    match step
    case CreateRun(r, _, output) => r !in s.runs && output !in s.messages
    case Start(t, r) => t !in s.tasks && (r in s.runs ==> s.runs[r].status == Queued)
    case Resume(t, _, _, _) => t !in s.tasks
    case ChunkArrives(_, chunk) =>
      match chunk {
        case Interrupt(call, _) => call !in s.toolCalls
        case GraphUpdate(said, _) => said.Some? ==> !Forwarded(said.value)
        case _ => true
      }
    case _ => true
  }
}
