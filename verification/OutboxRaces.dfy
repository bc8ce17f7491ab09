/** Dispatchers and workers on the same outbox, interleaved statement by statement. */
module OutboxRaces {
  import opened Ordering
  import opened Outbox

  type DispatcherId = int

  /** A dispatcher between two of its statements. While listing: the databases not queried yet and what
      the others gave. Then: what it listed and has not marked yet, and, once the first of these was
      handed to the publisher, whether that went well. */
  datatype Progress =
    | Gathering(taskType: string, pending: set<string>, found: seq<Task>)
    | Working(todo: seq<Task>, accepted: Option<bool>)

  /** `enqueued` holds every (type, key) the queue has ever accepted. */
  datatype State = State(
    tables: map<string, Rows>,
    enqueued: set<(string, string)>,
    dispatchers: map<DispatcherId, Progress>)

  /** Add is a business transaction enqueueing a task, whether or not its key is there already. */
  datatype Step =
    | Add(db: string, id: int, taskType: string, taskKey: string, payload: string, executeAt: int)
    | Retire(db: string, id: int)                        // logical deletion
    | Begin(d: DispatcherId, taskType: string)
    | Query(d: DispatcherId, db: string)                 // one database, in any order
    | Collect(d: DispatcherId)                           // all databases queried: sort
    | Publish(d: DispatcherId, accepted: bool)           // accepted or duplicate, or refused
    | Mark(d: DispatcherId)
    | Stop(d: DispatcherId)                              // an error ends the run
    | Consume(db: string, change: Change)                // a worker's statement

  function Carry(s: State, db: string, c: Change): State {
    if db in s.tables then s.(tables := s.tables[db := Update(c, s.tables[db])]) else s
  }

  function Retired(rows: Rows, id: int): (out: Rows)
    ensures |out| == |rows|
    ensures forall i :: 0 <= i < |rows| ==> out[i] == if rows[i].id == id then rows[i].(status := 0) else rows[i]
  {
    seq(|rows|, i requires 0 <= i < |rows| => if rows[i].id == id then rows[i].(status := 0) else rows[i])
  }

  predicate Ready(s: State, d: DispatcherId) {
    d in s.dispatchers && s.dispatchers[d].Working? && s.dispatchers[d].todo != [] && s.dispatchers[d].accepted.None?
  }

  predicate Decided(s: State, d: DispatcherId) {
    d in s.dispatchers && s.dispatchers[d].Working? && s.dispatchers[d].todo != [] && s.dispatchers[d].accepted.Some?
  }

  /** The statement a dispatcher is about to make, decided from what it listed earlier. */
  function NextMark(p: Progress): Change
    requires p.Working? && p.todo != [] && p.accepted.Some?
  {
    if p.accepted.value then MarkPublished(p.todo[0].ref.id) else MarkPublishFailed(p.todo[0].ref.id)
  }

  predicate Queries(s: State, d: DispatcherId, db: string) {
    d in s.dispatchers && s.dispatchers[d].Gathering? && db in s.dispatchers[d].pending && db in s.tables
  }

  predicate Queried(s: State, d: DispatcherId) {
    d in s.dispatchers && s.dispatchers[d].Gathering? && s.dispatchers[d].pending == {}
  }

  ghost function Exec(s: State, step: Step): State {
    match step
    case Add(db, id, taskType, taskKey, payload, executeAt) =>
      if db in s.tables then
        s.(tables := s.tables[db := Enqueued(s.tables[db], NewRow(id, taskType, taskKey, payload, executeAt))])
      else s
    case Retire(db, id) =>
      if db in s.tables then s.(tables := s.tables[db := Retired(s.tables[db], id)]) else s
    case Begin(d, taskType) => s.(dispatchers := s.dispatchers[d := Gathering(taskType, s.tables.Keys, [])])
    case Query(d, db) =>
      if !Queries(s, d, db) then s
      else
        var p := s.dispatchers[d];
        s.(dispatchers := s.dispatchers[d := p.(pending := p.pending - {db},
            found := p.found + Fetched(db, s.tables[db], p.taskType))])
    case Collect(d) =>
      if !Queried(s, d) then s
      else s.(dispatchers := s.dispatchers[d := Working(Sort(s.dispatchers[d].found, TaskOrder()), None)])
    case Publish(d, accepted) =>
      if !Ready(s, d) then s
      else
        var p := s.dispatchers[d];
        s.(dispatchers := s.dispatchers[d := p.(accepted := Some(accepted))],
           enqueued := s.enqueued + if accepted then {(p.todo[0].taskType, p.todo[0].taskKey)} else {})
    case Mark(d) =>
      if !Decided(s, d) then s
      else
        var p := s.dispatchers[d];
        var next := Carry(s, p.todo[0].ref.dbKey, NextMark(p));
        next.(dispatchers := next.dispatchers[d := Working(p.todo[1..], None)])
    case Stop(d) => s.(dispatchers := s.dispatchers - {d})
    case Consume(db, change) => Carry(s, db, change)
  }

  /** What the environment promises: fresh ids, and workers only see what the queue has delivered. */
  ghost predicate Admissible(s: State, step: Step) {
    match step
    case Add(db, id, _, _, _, _) => db in s.tables ==> forall r :: r in s.tables[db] ==> r.id != id
    case Consume(_, change) => ByWorker(change) && (change.taskType, change.taskKey) in s.enqueued
    case _ => true
  }

  // ----- invariant

  ghost predicate HasRow(s: State, db: string, i: nat) {
    db in s.tables && i < |s.tables[db]|
  }

  function RowAt(s: State, db: string, i: nat): Row
    requires db in s.tables && i < |s.tables[db]|
  {
    s.tables[db][i]
  }

  function KeyOf(r: Row): (string, string) { (r.taskType, r.taskKey) }

  /** The primary key and the unique key. */
  ghost predicate Unique(rows: Rows) {
    && DistinctIds(rows)
    && forall i, j :: 0 <= i < j < |rows| ==> KeyOf(rows[i]) != KeyOf(rows[j])
  }

  /** Declared statuses only; published and processed rows were accepted by the queue. */
  ghost predicate RowOk(s: State, r: Row) {
    && r.taskStatus in {PENDING, PUBLISHED, PROCESSED, FAILED}
    && (r.taskStatus == PUBLISHED || r.taskStatus == PROCESSED || r.consumeAttempts > 0 ==> KeyOf(r) in s.enqueued)
  }

  /** A task a dispatcher holds still names the row it was made from. */
  ghost predicate Names(s: State, t: Task) {
    exists i: nat :: HasRow(s, t.ref.dbKey, i) &&
      RowAt(s, t.ref.dbKey, i).id == t.ref.id && KeyOf(RowAt(s, t.ref.dbKey, i)) == (t.taskType, t.taskKey)
  }

  ghost predicate ProgressOk(s: State, p: Progress) {
    match p
    case Gathering(_, _, found) => forall t :: t in found ==> Names(s, t)
    case Working(todo, accepted) =>
      && (forall t :: t in todo ==> Names(s, t))
      && (accepted == Some(true) && todo != [] ==> (todo[0].taskType, todo[0].taskKey) in s.enqueued)
  }

  ghost predicate Inv(s: State) {
    && (forall db :: db in s.tables ==> Unique(s.tables[db]))
    && (forall db, i: nat :: HasRow(s, db, i) ==> RowOk(s, RowAt(s, db, i)))
    && (forall d :: d in s.dispatchers ==> ProgressOk(s, s.dispatchers[d]))
  }

  /** Rows are never lost or renamed, and the queue forgets nothing. */
  ghost predicate Grows(s: State, s': State) {
    && s'.tables.Keys == s.tables.Keys && s.enqueued <= s'.enqueued
    && forall db, i: nat :: HasRow(s, db, i) ==>
         HasRow(s', db, i) && RowAt(s', db, i).id == RowAt(s, db, i).id
             && KeyOf(RowAt(s', db, i)) == KeyOf(RowAt(s, db, i))
  }

  lemma StepGrows(s: State, step: Step)
    ensures Grows(s, Exec(s, step))
  {
    match step {
      case Mark(d) =>
        if Decided(s, d) {
          CarryGrows(s, s.dispatchers[d].todo[0].ref.dbKey, NextMark(s.dispatchers[d]));
        }
        hide Carry;
      case Consume(db, change) =>
        CarryGrows(s, db, change);
        hide Carry;
      case _ =>
    }
  }

  lemma CarryGrows(s: State, db: string, c: Change)
    ensures Grows(s, Carry(s, db, c))
  {}

  lemma NamesKept(s: State, s': State, t: Task)
    requires Grows(s, s') && Names(s, t)
    ensures Names(s', t)
  {
    var i: nat :| HasRow(s, t.ref.dbKey, i) &&
      RowAt(s, t.ref.dbKey, i).id == t.ref.id && KeyOf(RowAt(s, t.ref.dbKey, i)) == (t.taskType, t.taskKey);
    assert HasRow(s', t.ref.dbKey, i);
  }

  lemma ProgressKept(s: State, s': State, p: Progress)
    requires Grows(s, s') && ProgressOk(s, p)
    ensures ProgressOk(s', p)
  {
    hide Grows, Names;
    var tasks := if p.Gathering? then p.found else p.todo;
    forall t | t in tasks ensures Names(s', t) {
      NamesKept(s, s', t);
    }
    EnqueuedKept(s, s');
  }

  lemma EnqueuedKept(s: State, s': State)
    requires Grows(s, s')
    ensures s.enqueued <= s'.enqueued
  {}

  /** The row a statement reaches has an accepted key if the statement publishes or consumes it. */
  ghost predicate Backed(s: State, db: string, c: Change) {
    forall i: nat :: HasRow(s, db, i) && Hits(c, RowAt(s, db, i)) && !c.MarkPublishFailed? ==>
      KeyOf(RowAt(s, db, i)) in s.enqueued
  }

  lemma CarryKeepsRows(s: State, db: string, c: Change)
    requires Inv(s) && Backed(s, db, c)
    ensures forall e :: e in Carry(s, db, c).tables ==> Unique(Carry(s, db, c).tables[e])
    ensures forall e, i: nat :: HasRow(Carry(s, db, c), e, i) ==> RowOk(Carry(s, db, c), RowAt(Carry(s, db, c), e, i))
  {
    var s' := Carry(s, db, c);
    forall e, i: nat | HasRow(s', e, i) ensures RowOk(s', RowAt(s', e, i)) {
      assert HasRow(s, e, i) && RowOk(s, RowAt(s, e, i));
    }
    forall e | e in s'.tables ensures Unique(s'.tables[e]) {
      assert Unique(s.tables[e]);
      forall i | 0 <= i < |s.tables[e]|
        ensures s'.tables[e][i].id == s.tables[e][i].id && KeyOf(s'.tables[e][i]) == KeyOf(s.tables[e][i])
      {}
    }
  }

  lemma MarkIsBacked(s: State, d: DispatcherId)
    requires Inv(s) && Decided(s, d)
    ensures var p := s.dispatchers[d]; Backed(s, p.todo[0].ref.dbKey, NextMark(p))
  {
    var p := s.dispatchers[d];
    var t := p.todo[0];
    var db := t.ref.dbKey;
    assert ProgressOk(s, p) && t in p.todo && Names(s, t);
    forall i: nat | HasRow(s, db, i) && Hits(NextMark(p), RowAt(s, db, i)) && !NextMark(p).MarkPublishFailed?
      ensures KeyOf(RowAt(s, db, i)) in s.enqueued
    {
      var j: nat :| HasRow(s, db, j) && RowAt(s, db, j).id == t.ref.id
          && KeyOf(RowAt(s, db, j)) == (t.taskType, t.taskKey);
      assert Unique(s.tables[db]);
      assert i == j;
    }
  }

  lemma FetchedIsNamed(s: State, db: string, taskType: string, t: Task)
    requires db in s.tables && DistinctIds(s.tables[db]) && t in Fetched(db, s.tables[db], taskType)
    ensures Names(s, t)
  {
    var rows := s.tables[db];
    FetchedSpec(db, rows, taskType);
    hide Fetched;
    var r :| r in rows && OfType(taskType)(r) && t == TaskOf(db, r);
    var i :| 0 <= i < |rows| && rows[i] == r;
    assert HasRow(s, t.ref.dbKey, i);
  }

  /** Every admissible step keeps the invariant. */
  lemma StepKeepsInv(s: State, step: Step)
    requires Inv(s) && Admissible(s, step)
    ensures Inv(Exec(s, step))
  {
    StepGrows(s, step);
    TablesKept(s, step);
    var s' := Exec(s, step);
    forall d | d in s'.dispatchers ensures ProgressOk(s', s'.dispatchers[d]) {
      DispatcherKept(s, step, d);
    }
  }

  lemma TablesKept(s: State, step: Step)
    requires Inv(s) && Admissible(s, step)
    ensures forall db :: db in Exec(s, step).tables ==> Unique(Exec(s, step).tables[db])
    ensures forall db, i: nat :: HasRow(Exec(s, step), db, i) ==> RowOk(Exec(s, step), RowAt(Exec(s, step), db, i))
  {
    var s' := Exec(s, step);
    match step {
      case Add(db, id, taskType, taskKey, payload, executeAt) =>
        AddedRows(s, step, db, NewRow(id, taskType, taskKey, payload, executeAt));
      case Retire(db, id) => RetiredRows(s, db, id);
      case Mark(d) =>
        if Decided(s, d) {
          var p := s.dispatchers[d];
          MarkIsBacked(s, d);
          CarryKeepsRows(s, p.todo[0].ref.dbKey, NextMark(p));
          SameTables(Carry(s, p.todo[0].ref.dbKey, NextMark(p)), s');
        }
      case Consume(db, change) => CarryKeepsRows(s, db, change);
      case Publish(d, accepted) => SameTables(s, s');
      case _ =>
        assert s'.tables == s.tables && s'.enqueued == s.enqueued;
        SameTables(s, s');
    }
  }

  lemma SameTables(s: State, s': State)
    requires s'.tables == s.tables && s.enqueued <= s'.enqueued
    requires forall db :: db in s.tables ==> Unique(s.tables[db])
    requires forall db, i: nat :: HasRow(s, db, i) ==> RowOk(s, RowAt(s, db, i))
    ensures forall db :: db in s'.tables ==> Unique(s'.tables[db])
    ensures forall db, i: nat :: HasRow(s', db, i) ==> RowOk(s', RowAt(s', db, i))
  {
    forall db, i: nat | HasRow(s', db, i) ensures RowOk(s', RowAt(s', db, i)) {
      assert HasRow(s, db, i) && RowOk(s, RowAt(s, db, i));
    }
  }

  lemma AddedRows(s: State, step: Step, db: string, row: Row)
    requires Inv(s) && Admissible(s, step) && step.Add? && step.db == db
    requires row == NewRow(step.id, step.taskType, step.taskKey, step.payload, step.executeAt)
    ensures forall e :: e in Exec(s, step).tables ==> Unique(Exec(s, step).tables[e])
    ensures forall e, i: nat :: HasRow(Exec(s, step), e, i) ==> RowOk(Exec(s, step), RowAt(Exec(s, step), e, i))
  {
    var s' := Exec(s, step);
    forall e, i: nat | HasRow(s', e, i) ensures RowOk(s', RowAt(s', e, i)) {
      if HasRow(s, e, i) {
        assert RowOk(s, RowAt(s, e, i));
      }
    }
    if db in s.tables {
      EnqueuedUnique(s.tables[db], row);
    }
  }

  lemma EnqueuedUnique(rows: Rows, row: Row)
    requires Unique(rows) && forall r :: r in rows ==> r.id != row.id
    ensures Unique(Enqueued(rows, row))
  {
    var out := Enqueued(rows, row);
    forall i, j | 0 <= i < j < |out| ensures out[i].id != out[j].id && KeyOf(out[i]) != KeyOf(out[j]) {
      assert rows[i] in rows && KeyOf(out[i]) == KeyOf(rows[i]);
    }
  }

  lemma RetiredRows(s: State, db: string, id: int)
    requires Inv(s)
    ensures forall e :: e in Exec(s, Retire(db, id)).tables ==> Unique(Exec(s, Retire(db, id)).tables[e])
    ensures forall e, i: nat :: HasRow(Exec(s, Retire(db, id)), e, i) ==>
              RowOk(Exec(s, Retire(db, id)), RowAt(Exec(s, Retire(db, id)), e, i))
  {
    var s' := Exec(s, Retire(db, id));
    forall e, i: nat | HasRow(s', e, i) ensures RowOk(s', RowAt(s', e, i)) {
      assert HasRow(s, e, i) && RowOk(s, RowAt(s, e, i));
    }
  }

  lemma DispatcherKept(s: State, step: Step, d: DispatcherId)
    requires Inv(s) && Admissible(s, step) && Grows(s, Exec(s, step)) && d in Exec(s, step).dispatchers
    ensures ProgressOk(Exec(s, step), Exec(s, step).dispatchers[d])
  {
    var s' := Exec(s, step);
    hide Grows, Names;
    if d in s.dispatchers {
      ProgressKept(s, s', s.dispatchers[d]);
    }
    if step.Query? && step.d == d && Queries(s, d, step.db) {
      var p := s.dispatchers[d];
      forall t | t in p.found + Fetched(step.db, s.tables[step.db], p.taskType) ensures Names(s', t) {
        if t !in p.found {
          FetchedIsNamed(s, step.db, p.taskType, t);
          NamesKept(s, s', t);
        }
      }
    } else if step.Collect? && step.d == d && Queried(s, d) {
      SortMembers(s.dispatchers[d].found, TaskOrder());
    } else if step.Mark? && step.d == d && Decided(s, d) {
      var p := s.dispatchers[d];
      forall t | t in p.todo[1..] ensures Names(s', t) {
        assert t in p.todo;
      }
    }
  }

  // ----- histories

  ghost predicate History(s: State, steps: seq<Step>, last: State)
    decreases |steps|
  {
    if steps == [] then last == s
    else Admissible(s, steps[0]) && History(Exec(s, steps[0]), steps[1..], last)
  }

  lemma {:induction false} HistoryKeepsInv(s: State, steps: seq<Step>, last: State)
    requires Inv(s) && History(s, steps, last)
    ensures Inv(last)
    decreases |steps|
  {
    hide Inv, Exec, Admissible;
    if steps != [] {
      StepKeepsInv(s, steps[0]);
      HistoryKeepsInv(Exec(s, steps[0]), steps[1..], last);
    }
  }

  // ----- guarantees

  /** Whatever a dispatcher listed and however late it marks: its statement changes no row that is
      processed or retired by now, and moves any other along a declared edge or not at all. */
  lemma LateMarksAreSafe(s: State, d: DispatcherId, db: string, i: nat)
    requires HasRow(s, db, i)
    ensures HasRow(Exec(s, Mark(d)), db, i)
    ensures var r := RowAt(s, db, i);
            var r' := RowAt(Exec(s, Mark(d)), db, i);
            && (r.taskStatus == PROCESSED || r.status != 1 ==> r' == r)
            && (r'.taskStatus != r.taskStatus ==> CanTransition(r.taskStatus, r'.taskStatus))
            && r.publishAttempts <= r'.publishAttempts <= r.publishAttempts + 1
            && r' == r.(taskStatus := r'.taskStatus, publishAttempts := r'.publishAttempts)
  {
    if Decided(s, d) {
      DispatcherIsSafe(NextMark(s.dispatchers[d]), RowAt(s, db, i));
    }
  }

  /** The step enqueues the row's key again. */
  ghost predicate Resets(step: Step, db: string, r: Row) {
    step.Add? && step.db == db && (step.taskType, step.taskKey) == KeyOf(r)
  }

  /** The steps that move a row along no declared edge: a worker processes it while it is pending, a worker
      reports a failure when it is processed, or it is enqueued again after it has left pending. */
  ghost predicate LeavesLifecycle(step: Step, db: string, r: Row) {
    || (step.Consume? && step.db == db && Hits(step.change, r) && Unlisted(step.change, r))
    || (Resets(step, db, r) && r.taskStatus != PENDING)
  }

  /** Exactly these do. */
  lemma StepLeavesLifecycleIff(s: State, step: Step, db: string, i: nat)
    requires Inv(s) && Admissible(s, step) && HasRow(s, db, i)
    ensures HasRow(Exec(s, step), db, i)
    ensures var r, r' := RowAt(s, db, i), RowAt(Exec(s, step), db, i);
            (r'.taskStatus != r.taskStatus && !CanTransition(r.taskStatus, r'.taskStatus)) <==>
                LeavesLifecycle(step, db, r)
  {
    var r := RowAt(s, db, i);
    assert RowOk(s, r);
    hide Inv;
    if step.Mark? {
      LateMarksAreSafe(s, step.d, db, i);
    } else if step.Consume? && step.db == db && Hits(step.change, r) {
      FollowsLifecycleIff(step.change, r);
    } else if step.Add? && step.db == db {
      var c := Reset(step.taskType, step.taskKey, step.payload, step.executeAt);
      if Hits(c, r) {
        FollowsLifecycleIff(c, r);
      }
    }
  }

  /** A retired row comes back exactly by being enqueued again. */
  lemma RetiredStep(s: State, step: Step, db: string, i: nat)
    requires HasRow(s, db, i) && RowAt(s, db, i).status != 1 && (step.Consume? ==> ByWorker(step.change))
    ensures HasRow(Exec(s, step), db, i)
    ensures RowAt(Exec(s, step), db, i).status == 1 <==> Resets(step, db, RowAt(s, db, i))
  {
    if step.Mark? {
      LateMarksAreSafe(s, step.d, db, i);
    }
  }

  /** The steps that take a row out of processed. */
  ghost predicate Reopens(step: Step, db: string, r: Row) {
    || Resets(step, db, r)
    || (step.Consume? && step.db == db && step.change == MarkConsumeFailed(r.taskType, r.taskKey) && r.status == 1)
  }

  lemma ProcessedStep(s: State, step: Step, db: string, i: nat)
    requires HasRow(s, db, i) && RowAt(s, db, i).taskStatus == PROCESSED
    requires step.Consume? ==> ByWorker(step.change)
    ensures HasRow(Exec(s, step), db, i)
    ensures RowAt(Exec(s, step), db, i).taskStatus != PROCESSED <==> Reopens(step, db, RowAt(s, db, i))
    ensures KeyOf(RowAt(Exec(s, step), db, i)) == KeyOf(RowAt(s, db, i))
  {
    if step.Mark? {
      LateMarksAreSafe(s, step.d, db, i);
    }
  }

  /** The step is about the row's key, and could take it out of processed while it is live. */
  ghost predicate MayReopen(step: Step, db: string, key: (string, string)) {
    || (step.Add? && step.db == db && (step.taskType, step.taskKey) == key)
    || (step.Consume? && step.db == db && step.change == MarkConsumeFailed(key.0, key.1))
  }

  /** Once processed, always processed, unless a worker reports a failure for that very task or the task is
      enqueued again. */
  lemma {:induction false} ProcessedStays(s: State, steps: seq<Step>, last: State, db: string, i: nat)
    requires History(s, steps, last) && HasRow(s, db, i) && RowAt(s, db, i).taskStatus == PROCESSED
    requires forall step :: step in steps ==> !MayReopen(step, db, KeyOf(RowAt(s, db, i)))
    ensures HasRow(last, db, i) && RowAt(last, db, i).taskStatus == PROCESSED
    decreases |steps|
  {
    if steps != [] {
      assert steps[0] in steps && !MayReopen(steps[0], db, KeyOf(RowAt(s, db, i)));
      ProcessedStep(s, steps[0], db, i);
      hide Exec, Admissible, MayReopen;
      assert forall step :: step in steps[1..] ==> step in steps;
      ProcessedStays(Exec(s, steps[0]), steps[1..], last, db, i);
    }
  }

  /** At any point of any history, a live row is in what a query of its database and type would now give
      exactly if it is not processed, and a row that is published or processed was accepted by the queue. */
  lemma NothingIsForgotten(s: State, steps: seq<Step>, last: State, db: string, i: nat)
    requires Inv(s) && History(s, steps, last) && HasRow(last, db, i)
    ensures var r := RowAt(last, db, i);
            && (r.status == 1 ==>
                (r.taskStatus != PROCESSED <==> TaskOf(db, r) in Fetched(db, last.tables[db], r.taskType)))
            && (r.taskStatus == PUBLISHED || r.taskStatus == PROCESSED ==> KeyOf(r) in last.enqueued)
  {
    HistoryKeepsInv(s, steps, last);
    var r := RowAt(last, db, i);
    var rows := last.tables[db];
    assert RowOk(last, r) && r in rows;
    FetchedSpec(db, rows, r.taskType);
    hide Fetched, Inv, History;
    if r.status == 1 && r.taskStatus != PROCESSED {
      assert OfType(r.taskType)(r);
    }
    if TaskOf(db, r) in Fetched(db, rows, r.taskType) {
      SameRow(rows, r, db);
    }
  }

  /** The row is to be dispatched. */
  ghost predicate Due(s: State, db: string, i: nat, taskType: string) {
    HasRow(s, db, i) && RowAt(s, db, i).status == 1 && RowAt(s, db, i).taskStatus != PROCESSED
        && RowAt(s, db, i).taskType == taskType
  }

  ghost predicate DueThroughout(s: State, steps: seq<Step>, db: string, i: nat, taskType: string)
    decreases |steps|
  {
    Due(s, db, i, taskType) && (steps != [] ==> DueThroughout(Exec(s, steps[0]), steps[1..], db, i, taskType))
  }

  /** Not the end of this listing, nor the beginning of another. */
  ghost predicate GoesOn(step: Step, d: DispatcherId) {
    step != Stop(d) && step != Collect(d) && !(step.Begin? && step.d == d)
  }

  ghost predicate Caught(p: Progress, ref: Ref) {
    p.Gathering? && (ref.dbKey in p.pending || exists t :: t in p.found && t.ref == ref)
  }

  lemma QueryCatches(s: State, step: Step, d: DispatcherId, db: string, i: nat)
    requires Inv(s) && d in s.dispatchers && GoesOn(step, d) && HasRow(s, db, i)
    requires var ref := Ref(db, RowAt(s, db, i).id); Caught(s.dispatchers[d], ref)
    requires Due(s, db, i, s.dispatchers[d].taskType)
    ensures d in Exec(s, step).dispatchers && Caught(Exec(s, step).dispatchers[d], Ref(db, RowAt(s, db, i).id))
    ensures Exec(s, step).dispatchers[d].taskType == s.dispatchers[d].taskType
    ensures Exec(s, step).dispatchers[d].pending <= s.dispatchers[d].pending
  {
    var p, r := s.dispatchers[d], RowAt(s, db, i);
    var ref := Ref(db, r.id);
    hide Fetched, Sort;
    if step.Query? && step.d == d && Queries(s, d, step.db) {
      var more := Fetched(step.db, s.tables[step.db], p.taskType);
      if t :| t in p.found && t.ref == ref {
        assert t in p.found + more;
      } else if step.db == db {
        assert RowOk(s, r) && r in s.tables[db] && OfType(p.taskType)(r);
        FetchedSpec(db, s.tables[db], p.taskType);
        assert TaskOf(db, r) in p.found + more;
      }
    }
  }

  lemma {:induction false} ListingCatches(s: State, steps: seq<Step>, last: State, d: DispatcherId, db: string, i: nat)
    requires Inv(s) && History(s, steps, last) && d in s.dispatchers && HasRow(s, db, i)
    requires Caught(s.dispatchers[d], Ref(db, RowAt(s, db, i).id))
    requires DueThroughout(s, steps, db, i, s.dispatchers[d].taskType)
    requires forall step :: step in steps ==> GoesOn(step, d)
    ensures d in last.dispatchers && Caught(last.dispatchers[d], Ref(db, RowAt(s, db, i).id))
    decreases |steps|
  {
    if steps != [] {
      var next := Exec(s, steps[0]);
      assert steps[0] in steps && forall step :: step in steps[1..] ==> step in steps;
      StepKeepsInv(s, steps[0]);
      StepGrows(s, steps[0]);
      QueryCatches(s, steps[0], d, db, i);
      hide Inv, Exec, Admissible, GoesOn, Caught;
      assert HasRow(next, db, i) && RowAt(next, db, i).id == RowAt(s, db, i).id;
      ListingCatches(next, steps[1..], last, d, db, i);
    }
  }

  /** The databases are queried one after the other while everything goes on. A row that is to be
      dispatched from the beginning of a listing to its end is in what the dispatcher then works through. */
  lemma ListingMissesNothing(s: State, taskType: string, steps: seq<Step>, last: State, d: DispatcherId, db: string,
      i: nat)
    requires Inv(s) && History(Exec(s, Begin(d, taskType)), steps, last) && Queried(last, d)
    requires forall step :: step in steps ==> GoesOn(step, d)
    requires DueThroughout(Exec(s, Begin(d, taskType)), steps, db, i, taskType)
    ensures var p := Exec(last, Collect(d)).dispatchers[d];
            p.Working? && HasRow(s, db, i) && exists t :: t in p.todo && t.ref == Ref(db, RowAt(s, db, i).id)
  {
    var first := Exec(s, Begin(d, taskType));
    StepKeepsInv(s, Begin(d, taskType));
    assert HasRow(first, db, i) && HasRow(s, db, i);
    ListingCatches(first, steps, last, d, db, i);
    hide Inv, History, GoesOn, Sort;
    var found := last.dispatchers[d].found;
    SortMembers(found, TaskOrder());
    var t :| t in found && t.ref == Ref(db, RowAt(s, db, i).id);
    assert t in Sort(found, TaskOrder());
  }

  lemma SameRow(rows: Rows, r: Row, db: string)
    requires r in rows && exists q :: q in rows && OfType(r.taskType)(q) && TaskOf(db, r) == TaskOf(db, q)
    ensures r.taskStatus != PROCESSED
  {
    var q :| q in rows && OfType(r.taskType)(q) && TaskOf(db, r) == TaskOf(db, q);
    assert TaskOf(db, r).taskStatus == r.taskStatus && TaskOf(db, q).taskStatus == q.taskStatus;
  }

  /** The queue may deliver before the dispatcher has marked: the worker then processes a row that is
      still pending, which no declared edge allows, and the dispatcher's mark finds nothing to do. */
  lemma ConsumedBeforeMarked(s: State, d: DispatcherId, i: nat)
    requires Inv(s) && Decided(s, d) && s.dispatchers[d].accepted == Some(true)
    requires var db := s.dispatchers[d].todo[0].ref.dbKey;
             && HasRow(s, db, i) && RowAt(s, db, i).id == s.dispatchers[d].todo[0].ref.id
             && RowAt(s, db, i).taskStatus == PENDING && RowAt(s, db, i).status == 1
    ensures var t := s.dispatchers[d].todo[0];
            var consume := Consume(t.ref.dbKey, MarkProcessed(t.taskType, t.taskKey));
            var s1 := Exec(s, consume);
            var s2 := Exec(s1, Mark(d));
            && Admissible(s, consume)
            && HasRow(s1, t.ref.dbKey, i) && RowAt(s1, t.ref.dbKey, i).taskStatus == PROCESSED
            && !CanTransition(PENDING, PROCESSED)
            && HasRow(s2, t.ref.dbKey, i) && RowAt(s2, t.ref.dbKey, i) == RowAt(s1, t.ref.dbKey, i)
  {
    var p := s.dispatchers[d];
    var t := p.todo[0];
    var db := t.ref.dbKey;
    assert ProgressOk(s, p) && t in p.todo && Names(s, t);
    var j: nat :| HasRow(s, db, j) && RowAt(s, db, j).id == t.ref.id
        && KeyOf(RowAt(s, db, j)) == (t.taskType, t.taskKey);
    assert Unique(s.tables[db]);
    assert i == j;
    var s1 := Exec(s, Consume(db, MarkProcessed(t.taskType, t.taskKey)));
    LateMarksAreSafe(s1, d, db, i);
  }

  // ----- a history from an empty outbox

  lemma {:induction false} HistoryThen(s: State, steps: seq<Step>, middle: State, step: Step)
    requires History(s, steps, middle) && Admissible(middle, step)
    ensures History(s, steps + [step], Exec(middle, step))
    decreases |steps|
  {
    hide Admissible, Exec;
    if steps == [] {
      assert [] + [step] == [step] && [step][1..] == [];
    } else {
      assert (steps + [step])[1..] == steps[1..] + [step];
      HistoryThen(Exec(s, steps[0]), steps[1..], middle, step);
    }
  }

  lemma HistoryFirst(s: State, step: Step, rest: seq<Step>, last: State)
    requires Admissible(s, step) && History(Exec(s, step), rest, last)
    ensures History(s, [step] + rest, last)
  {
    hide Admissible, Exec;
    assert ([step] + rest)[1..] == rest;
  }

  const NOTHING := State(map["db" := []], {}, map[])
  const ADD := Add("db", 1, "t", "k", "p", 0)
  const LISTING := [Begin(9, "t"), Query(9, "db"), Collect(9)]
  const PUBLISH := Publish(9, true)
  const CONSUME := Consume("db", MarkProcessed("t", "k"))
  const AGAIN := Add("db", 2, "t", "k", "p", 0)

  lemma NothingIsSound()
    ensures Inv(NOTHING)
  {}

  function First(): Row { NewRow(1, "t", "k", "p", 0) }

  lemma AddedOne()
    ensures Admissible(NOTHING, ADD) && Exec(NOTHING, ADD) == State(map["db" := [First()]], {}, map[])
  {
    assert Enqueued([], First()) == [First()];
  }

  lemma FetchedOne()
    ensures Fetched("db", [First()], "t") == [TaskOf("db", First())]
  {
    assert [First()][1..] == [];
    assert Filter([First()], OfType("t")) == [First()];
    assert Sort([First()], RowOrder()) == [First()];
  }

  lemma ListedOne(s: State)
    requires s == State(map["db" := [First()]], {}, map[])
    ensures History(s, LISTING, s.(dispatchers := map[9 := Working([TaskOf("db", First())], None)]))
  {
    var task := TaskOf("db", First());
    assert s.tables.Keys == {"db"};
    var a := Exec(s, Begin(9, "t"));
    assert a.dispatchers == map[9 := Gathering("t", {"db"}, [])];
    FetchedOne();
    var b := Exec(a, Query(9, "db"));
    assert b.dispatchers[9] == Gathering("t", {}, [task]);
    assert b.dispatchers == map[9 := Gathering("t", {}, [task])];
    assert Sort([task], TaskOrder()) == [task] by {
      assert [task][1..] == [];
    }
    var c := Exec(b, Collect(9));
    assert c == s.(dispatchers := map[9 := Working([task], None)]);
    hide Exec, Fetched, Sort;
    assert LISTING[1..] == [Query(9, "db"), Collect(9)] && LISTING[1..][1..] == [Collect(9)] && [Collect(9)][1..] == [];
    assert History(c, [], c);
    assert History(b, [Collect(9)], c);
    assert History(a, LISTING[1..], c);
  }

  /** The steps after the listing: published, consumed before it is marked, and enqueued again. */
  lemma TheRest(s: State)
    requires s == State(map["db" := [First()]], {}, map[9 := Working([TaskOf("db", First())], None)])
    ensures var a := Exec(s, PUBLISH);
            var b := Exec(a, CONSUME);
            var c := Exec(b, AGAIN);
            && Admissible(s, PUBLISH) && Admissible(a, CONSUME) && Admissible(b, AGAIN)
            && a.tables == map["db" := [First()]]
            && b.tables == map["db" := [First().(taskStatus := PROCESSED, consumeAttempts := 1)]]
            && c.tables == map["db" := [First()]]
  {
    var a := Exec(s, PUBLISH);
    assert ("t", "k") in a.enqueued;
    var b := Exec(a, CONSUME);
    var done := First().(taskStatus := PROCESSED, consumeAttempts := 1);
    assert Update(CONSUME.change, [First()]) == [done];
    assert b.tables == map["db" := [done]];
    assert HasKey([done], "t", "k") by {
      assert [done][0].taskType == "t";
    }
    assert Enqueued([done], NewRow(2, "t", "k", "p", 0)) == [First()];
  }

  /** From an empty outbox: a task is added, listed and published; a worker processes it before the mark,
      from pending; and it is added again, which takes it from processed back to pending. Neither move has
      a declared edge. */
  lemma ReopenedHistory()
    ensures exists b, c ::
              && History(NOTHING, [ADD] + LISTING + [PUBLISH] + [CONSUME], b)
              && History(NOTHING, [ADD] + LISTING + [PUBLISH] + [CONSUME] + [AGAIN], c)
              && b.tables == map["db" := [First().(taskStatus := PROCESSED, consumeAttempts := 1)]]
              && c.tables == map["db" := [First()]]
    ensures Inv(NOTHING) && !CanTransition(PENDING, PROCESSED) && !CanTransition(PROCESSED, PENDING)
  {
    NothingIsSound();
    hide Inv;
    var s := AddedAndListed();
    TheRest(s);
    hide Exec, History, Admissible, ADD, LISTING, PUBLISH, CONSUME, AGAIN, NOTHING, First;
    var a := Exec(s, PUBLISH);
    var b := Exec(a, CONSUME);
    HistoryThen(NOTHING, [ADD] + LISTING, s, PUBLISH);
    HistoryThen(NOTHING, [ADD] + LISTING + [PUBLISH], a, CONSUME);
    HistoryThen(NOTHING, [ADD] + LISTING + [PUBLISH] + [CONSUME], b, AGAIN);
    NoSuchEdges();
  }

  lemma NoSuchEdges()
    ensures !CanTransition(PENDING, PROCESSED) && !CanTransition(PROCESSED, PENDING)
  {}

  lemma AddedAndListed() returns (s: State)
    ensures History(NOTHING, [ADD] + LISTING, s)
    ensures s == State(map["db" := [First()]], {}, map[9 := Working([TaskOf("db", First())], None)])
  {
    AddedOne();
    hide Exec, Admissible, NOTHING, ADD, LISTING, First, History;
    var added := Exec(NOTHING, ADD);
    ListedOne(added);
    s := added.(dispatchers := map[9 := Working([TaskOf("db", First())], None)]);
    HistoryFirst(NOTHING, ADD, LISTING, s);
  }
}
