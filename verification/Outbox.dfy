/** The delay-task outbox: its declared lifecycle, the statements that change its rows, and what
    dispatchers and workers can do to each other. */
module Outbox {
  import opened Ordering

  // ----- declared lifecycle

  const PENDING := 0
  const PUBLISHED := 1
  const PROCESSED := 3
  const FAILED := 4

  const ALLOWED: map<int, set<int>> :=
    map[PENDING := {PUBLISHED, FAILED},
        PUBLISHED := {PUBLISHED, PROCESSED, FAILED},
        FAILED := {PUBLISHED, PROCESSED}]

  predicate CanTransition(from: int, to: int) {
    from in ALLOWED && to in ALLOWED[from]
  }

  predicate IsTerminal(status: int) { status == PROCESSED }

  predicate ShouldRepublish(status: int) { status == PUBLISHED || status == FAILED }

  /** Nothing leads out of a terminal status, and every other declared status can be processed later. */
  lemma LifecycleShape(from: int, to: int)
    ensures IsTerminal(from) ==> !CanTransition(from, to)
    ensures ShouldRepublish(from) ==> CanTransition(from, PUBLISHED) && CanTransition(from, PROCESSED)
    ensures CanTransition(from, to) ==> to in {PUBLISHED, PROCESSED, FAILED} && from in {PENDING, PUBLISHED, FAILED}
  {}

  // ----- rows

  datatype Row = Row(
    id: int, taskType: string, taskKey: string, payload: string, executeAt: int,
    taskStatus: int, publishAttempts: int, consumeAttempts: int, status: int)

  type Rows = seq<Row>

  datatype Ref = Ref(dbKey: string, id: int)

  predicate Dispatchable(r: Row) {
    r.status == 1 && (r.taskStatus == PENDING || r.taskStatus == PUBLISHED || r.taskStatus == FAILED)
  }

  /** A statement's effect on one row. */
  datatype Change =
    | MarkPublished(id: int)
    | MarkPublishFailed(id: int)
    | MarkProcessed(taskType: string, taskKey: string)
    | MarkConsumeFailed(taskType: string, taskKey: string)
    | Reset(taskType: string, taskKey: string, payload: string, executeAt: int)   // ON DUPLICATE KEY UPDATE

  predicate ByDispatcher(c: Change) { c.MarkPublished? || c.MarkPublishFailed? }

  predicate ByWorker(c: Change) { c.MarkProcessed? || c.MarkConsumeFailed? }

  predicate Hits(c: Change, r: Row) {
    match c
    case MarkPublished(id) => r.id == id && Dispatchable(r)
    case MarkPublishFailed(id) => r.id == id && Dispatchable(r)
    case MarkProcessed(taskType, taskKey) => r.taskType == taskType && r.taskKey == taskKey && r.status == 1
    case MarkConsumeFailed(taskType, taskKey) => r.taskType == taskType && r.taskKey == taskKey && r.status == 1
    case Reset(taskType, taskKey, _, _) => r.taskType == taskType && r.taskKey == taskKey
  }

  function Changed(c: Change, r: Row): Row {
    if !Hits(c, r) then r
    else
      match c
      case MarkPublished(_) => r.(taskStatus := PUBLISHED, publishAttempts := r.publishAttempts + 1)
      case MarkPublishFailed(_) => r.(taskStatus := FAILED, publishAttempts := r.publishAttempts + 1)
      case MarkProcessed(_, _) => r.(taskStatus := PROCESSED, consumeAttempts := r.consumeAttempts + 1)
      case MarkConsumeFailed(_, _) => r.(taskStatus := FAILED, consumeAttempts := r.consumeAttempts + 1)
      case Reset(_, _, payload, executeAt) =>
        r.(payload := payload, executeAt := executeAt, taskStatus := PENDING, publishAttempts := 0,
            consumeAttempts := 0, status := 1)
  }

  /** `update ... where ...` on one table. */
  function Update(c: Change, rows: Rows): (out: Rows)
    ensures |out| == |rows|
    ensures forall i :: 0 <= i < |rows| ==> out[i] == Changed(c, rows[i])
  {
    seq(|rows|, i requires 0 <= i < |rows| => Changed(c, rows[i]))
  }

  // ----- one statement against the lifecycle

  /** A dispatcher's statement touches no processed and no retired row, and moves a status along a
      declared edge or not at all; every hit counts as one attempt. */
  lemma DispatcherIsSafe(c: Change, r: Row)
    requires ByDispatcher(c)
    ensures r.taskStatus == PROCESSED || r.status != 1 ==> Changed(c, r) == r
    ensures Changed(c, r).taskStatus != r.taskStatus ==> CanTransition(r.taskStatus, Changed(c, r).taskStatus)
    ensures Changed(c, r).publishAttempts == r.publishAttempts + if Hits(c, r) then 1 else 0
    ensures Changed(c, r).consumeAttempts == r.consumeAttempts
  {}

  /** A statement of a worker, or a repeated enqueue, is unguarded. On the declared statuses a statement
      follows the lifecycle exactly when it does not process a row that is still pending, does not fail
      one that is processed, and does not enqueue again one that has left pending. */
  lemma FollowsLifecycleIff(c: Change, r: Row)
    requires Hits(c, r) && r.taskStatus in {PENDING, PUBLISHED, PROCESSED, FAILED}
    ensures (Changed(c, r).taskStatus != r.taskStatus ==> CanTransition(r.taskStatus, Changed(c, r).taskStatus))
            <==> !Unlisted(c, r)
  {}

  /** The moves that no declared edge has. */
  predicate Unlisted(c: Change, r: Row) {
    || (c.MarkProcessed? && r.taskStatus == PENDING)
    || (c.MarkConsumeFailed? && r.taskStatus == PROCESSED)
    || (c.Reset? && r.taskStatus != PENDING)
  }

  /** A row is taken out of processed by a consume failure and by a repeated enqueue, and by nothing else. */
  lemma LeavesProcessedIff(c: Change, r: Row)
    requires r.taskStatus == PROCESSED
    ensures Changed(c, r).taskStatus != PROCESSED <==> (c.MarkConsumeFailed? || c.Reset?) && Hits(c, r)
  {}

  // ----- enqueueing

  /** The row of a new task. */
  function NewRow(id: int, taskType: string, taskKey: string, payload: string, executeAt: int): Row {
    Row(id, taskType, taskKey, payload, executeAt, PENDING, 0, 0, 1)
  }

  ghost predicate HasKey(rows: Rows, taskType: string, taskKey: string) {
    exists i :: 0 <= i < |rows| && rows[i].taskType == taskType && rows[i].taskKey == taskKey
  }

  /** `INSERT ... ON DUPLICATE KEY UPDATE` on the unique key (task type, task key). */
  ghost function Enqueued(rows: Rows, row: Row): (out: Rows)
    ensures |rows| <= |out| <= |rows| + 1
    ensures forall i :: 0 <= i < |rows| ==>
              out[i] == Changed(Reset(row.taskType, row.taskKey, row.payload, row.executeAt), rows[i])
    ensures HasKey(out, row.taskType, row.taskKey)
  {
    var c := Reset(row.taskType, row.taskKey, row.payload, row.executeAt);
    if HasKey(rows, row.taskType, row.taskKey) then
      var i :| 0 <= i < |rows| && rows[i].taskType == row.taskType && rows[i].taskKey == row.taskKey;
      assert Hits(c, rows[i]) && Update(c, rows)[i] == Changed(c, rows[i]);
      Update(c, rows)
    else
      assert (rows + [row])[|rows|] == row;
      rows + [row]
  }

  // ----- listing

  datatype Task = Task(ref: Ref, taskType: string, taskKey: string, payload: string, executeAt: int,
                       taskStatus: int, publishAttempts: int)

  function TaskOf(db: string, r: Row): Task {
    Task(Ref(db, r.id), r.taskType, r.taskKey, r.payload, r.executeAt, r.taskStatus, r.publishAttempts)
  }

  /** One table per connection; None is a database whose query fails. */
  type Databases = map<string, Option<Rows>>

  datatype Option<T> = None | Some(value: T)

  function RowOrder(): Row -> Key { (r: Row) => [r.id] }

  /** The comparison of sort.Slice: by id, then by database. */
  function TaskOrder(): Task -> Key { (t: Task) => [t.ref.id] + Codes(t.ref.dbKey) }

  function OfType(taskType: string): Row -> bool {
    (r: Row) => Dispatchable(r) && r.taskType == taskType
  }

  function TasksOf(db: string, rows: Rows): seq<Task> {
    seq(|rows|, i requires 0 <= i < |rows| => TaskOf(db, rows[i]))
  }

  ghost predicate PrimaryKeys(dbs: Databases) {
    forall db :: db in dbs && dbs[db].Some? ==> DistinctIds(dbs[db].value)
  }

  ghost predicate DistinctIds(rows: Rows) {
    forall i, j :: 0 <= i < j < |rows| ==> rows[i].id != rows[j].id
  }

  /** A row waiting to be dispatched, seen as a task. */
  ghost predicate Listed(dbs: Databases, taskType: string, t: Task) {
    && t.ref.dbKey in dbs && dbs[t.ref.dbKey].Some?
    && exists r :: r in dbs[t.ref.dbKey].value && OfType(taskType)(r) && t == TaskOf(t.ref.dbKey, r)
  }

  datatype ListResult = Listing(tasks: seq<Task>) | ListFailed

  lemma RefsDecideOrder(a: Task, b: Task)
    ensures TaskOrder()(a) == TaskOrder()(b) ==> a.ref == b.ref
  {
    CodesInjective(a.ref.dbKey, b.ref.dbKey);
    assert TaskOrder()(a)[0] == a.ref.id && TaskOrder()(b)[0] == b.ref.id;
    assert TaskOrder()(a)[1..] == Codes(a.ref.dbKey) && TaskOrder()(b)[1..] == Codes(b.ref.dbKey);
  }

  ghost predicate DistinctRefs(tasks: seq<Task>) {
    forall i, j :: 0 <= i < j < |tasks| ==> tasks[i].ref != tasks[j].ref
  }

  /** The rows of one database, by id, as tasks. */
  function Fetched(db: string, rows: Rows, taskType: string): seq<Task> {
    TasksOf(db, Sort(Filter(rows, OfType(taskType)), RowOrder()))
  }

  lemma RowOrderIsId(a: Row, b: Row)
    ensures Less(RowOrder()(a), RowOrder()(b)) <==> a.id < b.id
  {
    assert [a.id][1..] == [] && [b.id][1..] == [];
  }

  lemma FetchedSpec(db: string, rows: Rows, taskType: string)
    requires DistinctIds(rows)
    ensures DistinctRefs(Fetched(db, rows, taskType))
    ensures var got := Fetched(db, rows, taskType); forall i, j :: 0 <= i < j < |got| ==> got[i].ref.id < got[j].ref.id
    ensures forall t :: t in Fetched(db, rows, taskType) <==>
                        exists r :: r in rows && OfType(taskType)(r) && t == TaskOf(db, r)
  {
    var kept := Filter(rows, OfType(taskType));
    var sorted := Sort(kept, RowOrder());
    var got := Fetched(db, rows, taskType);
    forall i, j | 0 <= i < j < |rows| ensures RowOrder()(rows[i]) != RowOrder()(rows[j]) {
      assert RowOrder()(rows[i])[0] == rows[i].id && RowOrder()(rows[j])[0] == rows[j].id;
    }
    FilterDistinct(rows, OfType(taskType), RowOrder());
    SortSpec(kept, RowOrder());
    forall i, j | 0 <= i < j < |got| ensures got[i].ref.id < got[j].ref.id {
      RowOrderIsId(sorted[i], sorted[j]);
    }
    hide RowOrder, OfType, DistinctIds;
    forall t ensures t in got <==> exists r :: r in rows && OfType(taskType)(r) && t == TaskOf(db, r) {
      if t in got {
        var i :| 0 <= i < |got| && got[i] == t;
        assert sorted[i] in sorted;
        FilterMembers(rows, OfType(taskType), sorted[i]);
      }
      if r :| r in rows && OfType(taskType)(r) && t == TaskOf(db, r) {
        FilterMembers(rows, OfType(taskType), r);
        assert r in sorted;
        var i :| 0 <= i < |sorted| && sorted[i] == r;
        assert got[i] == t;
      }
    }
  }

  /** What has been collected from the first d databases. */
  ghost predicate Gathered(dbs: Databases, keys: seq<string>, d: nat, taskType: string, items: seq<Task>)
    requires d <= |keys|
  {
    && DistinctRefs(items)
    && (forall t :: t in items <==> t.ref.dbKey in keys[..d] && Listed(dbs, taskType, t))
  }

  lemma GatherOne(dbs: Databases, keys: seq<string>, d: nat, taskType: string, items: seq<Task>)
    requires d < |keys| && Gathered(dbs, keys, d, taskType, items) && PrimaryKeys(dbs)
    requires keys[d] in dbs && dbs[keys[d]].Some? && keys[d] !in keys[..d]
    ensures Gathered(dbs, keys, d + 1, taskType, items + Fetched(keys[d], dbs[keys[d]].value, taskType))
  {
    var db := keys[d];
    var more := Fetched(db, dbs[db].value, taskType);
    FetchedSpec(db, dbs[db].value, taskType);
    assert keys[..d + 1] == keys[..d] + [db];
    hide Fetched, OfType;
    var all := items + more;
    forall t | t in more ensures t.ref.dbKey == db {
      var r :| r in dbs[db].value && OfType(taskType)(r) && t == TaskOf(db, r);
    }
    forall i, j | 0 <= i < j < |all| ensures all[i].ref != all[j].ref {
      if i < |items| <= j {
        assert all[i] in items && all[j] in more;
      }
    }
    forall t ensures t in all <==> t.ref.dbKey in keys[..d + 1] && Listed(dbs, taskType, t) {
      if t in more {
        assert Listed(dbs, taskType, t);
      }
    }
  }

  /** ListDispatchableByTaskType: every live unprocessed row of the type, in every database, once, in
      (id, database) order. */
  method ListDispatchable(dbs: Databases, taskType: string) returns (r: ListResult)
    requires PrimaryKeys(dbs)
    ensures r.ListFailed? <==> exists db :: db in dbs && dbs[db].None?
    ensures r.Listing? ==> Ascending(r.tasks, TaskOrder())
    ensures r.Listing? ==> forall t :: t in r.tasks <==> Listed(dbs, taskType, t)
  {
    hide Fetched, Listed;
    var keys := SortedKeys(dbs.Keys);
    var items: seq<Task> := [];
    for d := 0 to |keys|
      invariant Gathered(dbs, keys, d, taskType, items)
      invariant forall i :: 0 <= i < d ==> dbs[keys[i]].Some?
    {
      assert keys[d] in keys;
      if dbs[keys[d]].None? {
        return ListFailed;
      }
      GatherOne(dbs, keys, d, taskType, items);
      items := items + Fetched(keys[d], dbs[keys[d]].value, taskType);
    }
    assert keys[..|keys|] == keys;
    forall db | db in dbs ensures dbs[db].Some? {
      assert db in keys;
    }
    forall i, j | 0 <= i < j < |items| ensures TaskOrder()(items[i]) != TaskOrder()(items[j]) {
      RefsDecideOrder(items[i], items[j]);
    }
    SortSpec(items, TaskOrder());
    forall t ensures t in items <==> Listed(dbs, taskType, t) {
      ListedInDbs(dbs, taskType, t);
    }
    r := Listing(Sort(items, TaskOrder()));
  }

  lemma ListedInDbs(dbs: Databases, taskType: string, t: Task)
    ensures Listed(dbs, taskType, t) ==> t.ref.dbKey in dbs
  {}
}
