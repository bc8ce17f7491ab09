/** One run of the delay-task dispatcher, undisturbed. */
module Dispatcher {
  import opened Ordering
  import opened Outbox

  /** What the publisher answers; a duplicate task id counts as published. */
  datatype Published = Accepted | Duplicate | Refused

  datatype RunResult =
    | Finished(scanned: nat, published: nat, failed: nat)
    | ListingFailed
    | MarkingFailed(at: nat)

  function MarkFor(t: Task, p: Published): Change {
    if p == Refused then MarkPublishFailed(t.ref.id) else MarkPublished(t.ref.id)
  }

  /** A statement on one database; None when it cannot be carried out. */
  function Carried(dbs: Databases, db: string, c: Change): Option<Databases> {
    if db !in dbs || dbs[db].None? then None else Some(dbs[db := Some(Update(c, dbs[db].value))])
  }

  /** The rows after the tasks from k on were published and marked, in order. */
  function MarkAll(dbs: Databases, tasks: seq<Task>, publish: nat -> Published, k: nat): Databases
    requires k <= |tasks|
    decreases |tasks| - k
  {
    if k == |tasks| then dbs
    else
      var next := Carried(dbs, tasks[k].ref.dbKey, MarkFor(tasks[k], publish(k)));
      MarkAll(if next.Some? then next.value else dbs, tasks, publish, k + 1)
  }

  class Store {
    var dbs: Databases

    constructor (dbs: Databases)
      ensures this.dbs == dbs
    {
      this.dbs := dbs;
    }

    /** MarkPublished and MarkPublishFailed; `works` says whether the database carries the statement out. */
    method Mark(ref: Ref, c: Change, works: bool) returns (ok: bool)
      modifies this
      ensures var next := Carried(old(dbs), ref.dbKey, c);
              ok == (works && next.Some?) && dbs == if ok then next.value else old(dbs)
    {
      if !works || ref.dbKey !in dbs || dbs[ref.dbKey].None? {
        return false;
      }
      dbs := dbs[ref.dbKey := Some(Update(c, dbs[ref.dbKey].value))];
      ok := true;
    }

    /** RunOnceLogic.Run: list, then publish and mark one by one. The k-th publication answers
        `publish(k)`; the statement that marks it fails unless `marks(k)`, and ends the run. */
    method RunOnce(taskType: string, publish: nat -> Published, marks: nat -> bool)
      returns (r: RunResult, ghost tasks: seq<Task>)
      requires PrimaryKeys(dbs)
      modifies this
      ensures r == ListingFailed <==> exists db :: db in old(dbs) && old(dbs)[db].None?
      ensures r == ListingFailed ==> dbs == old(dbs)
      ensures r != ListingFailed ==>
                Ascending(tasks, TaskOrder()) && forall t :: t in tasks <==> Listed(old(dbs), taskType, t)
      ensures r.MarkingFailed? ==>
                && r.at < |tasks| && !marks(r.at) && (forall k :: 0 <= k < r.at ==> marks(k))
                && dbs == MarkAll(old(dbs), tasks[..r.at], publish, 0)
      ensures r.Finished? ==>
                && (forall k :: 0 <= k < |tasks| ==> marks(k))
                && dbs == MarkAll(old(dbs), tasks, publish, 0)
                && r.scanned == |tasks| == r.published + r.failed
                && r.failed == |Refusals(publish, |tasks|)|
    {
      hide MarkAll, TaskOrder, Refusals, Ascending, MarkFor, OfType;
      var listing := ListDispatchable(dbs, taskType);
      if listing.ListFailed? {
        tasks := [];
        return ListingFailed, tasks;
      }
      var records := listing.tasks;
      tasks := records;
      var published, failed := 0, 0;
      ghost var before := dbs;
      NothingMarked(dbs, records, publish);
      for k := 0 to |records|
        invariant dbs == MarkAll(before, records[..k], publish, 0)
        invariant published + failed == k && failed == |Refusals(publish, k)|
        invariant dbs.Keys == before.Keys && forall db :: db in dbs ==> dbs[db].Some?
        invariant forall j :: 0 <= j < k ==> marks(j)
      {
        var outcome := publish(k);
        assert Listed(before, taskType, records[k]);
        RefusalsStep(publish, k);
        MarkAllStep(before, records, publish, 0, k);
        var ok := Mark(records[k].ref, MarkFor(records[k], outcome), marks(k));
        if !ok {
          return MarkingFailed(k), tasks;
        }
        if outcome == Refused {
          failed := failed + 1;
        } else {
          published := published + 1;
        }
      }
      assert records[..|records|] == records;
      r := Finished(|records|, published, failed);
    }
  }

  lemma NothingMarked(dbs: Databases, tasks: seq<Task>, publish: nat -> Published)
    ensures MarkAll(dbs, tasks[..0], publish, 0) == dbs && Refusals(publish, 0) == {}
  {}

  /** Marking one task more. */
  lemma {:induction false} MarkAllStep(dbs: Databases, tasks: seq<Task>, publish: nat -> Published, k: nat, n: nat)
    requires k <= n < |tasks|
    ensures var so := MarkAll(dbs, tasks[..n], publish, k);
            var next := Carried(so, tasks[n].ref.dbKey, MarkFor(tasks[n], publish(n)));
            MarkAll(dbs, tasks[..n + 1], publish, k) == if next.Some? then next.value else so
    decreases n - k
  {
    if k < n {
      var next := Carried(dbs, tasks[k].ref.dbKey, MarkFor(tasks[k], publish(k)));
      MarkAllStep(if next.Some? then next.value else dbs, tasks, publish, k + 1, n);
    }
  }

  /** The positions at which publishing is refused. */
  function Refusals(publish: nat -> Published, n: nat): set<nat> {
    set k: nat | k < n && publish(k) == Refused
  }

  lemma RefusalsStep(publish: nat -> Published, n: nat)
    ensures |Refusals(publish, n + 1)| == |Refusals(publish, n)| + if publish(n) == Refused then 1 else 0
  {
    assert Refusals(publish, n + 1) == Refusals(publish, n) + if publish(n) == Refused then {n} else {};
  }

  // ----- what an undisturbed run does to each row

  ghost predicate DistinctRefsFrom(tasks: seq<Task>, k: nat) {
    forall i, j :: k <= i < j < |tasks| ==> tasks[i].ref != tasks[j].ref
  }

  function RowAt(dbs: Databases, db: string, i: nat): Row
    requires db in dbs && dbs[db].Some? && i < |dbs[db].value|
  {
    dbs[db].value[i]
  }

  ghost predicate HasRow(dbs: Databases, db: string, i: nat) {
    db in dbs && dbs[db].Some? && i < |dbs[db].value|
  }

  /** A row that no remaining task refers to keeps its value. */
  lemma {:induction false} UntouchedRow(dbs: Databases, tasks: seq<Task>, publish: nat -> Published, k: nat,
      db: string, i: nat)
    requires k <= |tasks| && HasRow(dbs, db, i)
    requires forall j :: k <= j < |tasks| ==> tasks[j].ref != Ref(db, RowAt(dbs, db, i).id)
    ensures HasRow(MarkAll(dbs, tasks, publish, k), db, i)
    ensures RowAt(MarkAll(dbs, tasks, publish, k), db, i) == RowAt(dbs, db, i)
    decreases |tasks| - k
  {
    if k < |tasks| {
      var next := Carried(dbs, tasks[k].ref.dbKey, MarkFor(tasks[k], publish(k)));
      var after := if next.Some? then next.value else dbs;
      assert tasks[k].ref != Ref(db, RowAt(dbs, db, i).id);
      assert HasRow(after, db, i) && RowAt(after, db, i) == RowAt(dbs, db, i);
      UntouchedRow(after, tasks, publish, k + 1, db, i);
    }
  }

  /** The row of a listed task is marked once, by its own outcome. */
  lemma {:induction false} MarkedRow(dbs: Databases, tasks: seq<Task>, publish: nat -> Published, k: nat, m: nat,
      db: string, i: nat)
    requires k <= m < |tasks| && HasRow(dbs, db, i) && DistinctRefsFrom(tasks, k)
    requires tasks[m].ref == Ref(db, RowAt(dbs, db, i).id)
    ensures HasRow(MarkAll(dbs, tasks, publish, k), db, i)
    ensures RowAt(MarkAll(dbs, tasks, publish, k), db, i) == Changed(MarkFor(tasks[m], publish(m)), RowAt(dbs, db, i))
    decreases |tasks| - k
  {
    var next := Carried(dbs, tasks[k].ref.dbKey, MarkFor(tasks[k], publish(k)));
    var after := if next.Some? then next.value else dbs;
    if k == m {
      assert RowAt(after, db, i) == Changed(MarkFor(tasks[m], publish(m)), RowAt(dbs, db, i));
      UntouchedRow(after, tasks, publish, k + 1, db, i);
    } else {
      assert tasks[k].ref != tasks[m].ref;
      assert RowAt(after, db, i) == RowAt(dbs, db, i);
      MarkedRow(after, tasks, publish, k + 1, m, db, i);
    }
  }

  lemma OrderedRefsDistinct(tasks: seq<Task>)
    requires Ascending(tasks, TaskOrder())
    ensures DistinctRefsFrom(tasks, 0)
  {
    forall i, j | 0 <= i < j < |tasks| ensures tasks[i].ref != tasks[j].ref {
      LessAsymmetric(TaskOrder()(tasks[i]), TaskOrder()(tasks[j]));
    }
  }

  /** What the m-th publication makes of its row. */
  function AfterAttempt(row: Row, p: Published): Row {
    row.(taskStatus := if p == Refused then FAILED else PUBLISHED, publishAttempts := row.publishAttempts + 1)
  }

  ghost predicate AttemptedOnce(tasks: seq<Task>, publish: nat -> Published, db: string, row: Row, now: Row) {
    exists m: nat :: m < |tasks| && tasks[m] == TaskOf(db, row) && now == AfterAttempt(row, publish(m))
  }

  /** After a run that got through the first `done` tasks, all of them or up to a mark that failed: a live
      unprocessed row of the type has one more attempt and is published or failed as its own publication
      went, if its task was among them; every other row is as it was. */
  lemma RunMarksEachRowOnce(dbs: Databases, taskType: string, tasks: seq<Task>, done: nat, publish: nat -> Published,
      db: string, i: nat)
    requires PrimaryKeys(dbs) && HasRow(dbs, db, i) && done <= |tasks|
    requires Ascending(tasks, TaskOrder()) && forall t :: t in tasks <==> Listed(dbs, taskType, t)
    ensures HasRow(MarkAll(dbs, tasks[..done], publish, 0), db, i)
    ensures var row := RowAt(dbs, db, i);
            var now := RowAt(MarkAll(dbs, tasks[..done], publish, 0), db, i);
            && (OfType(taskType)(row) <==> TaskOf(db, row) in tasks)
            && (if TaskOf(db, row) in tasks[..done] then AttemptedOnce(tasks[..done], publish, db, row, now)
                else now == row)
  {
    hide MarkAll, TaskOrder, PrimaryKeys;
    OrderedRefsDistinct(tasks);
    var row := RowAt(dbs, db, i);
    var first := tasks[..done];
    assert row in dbs[db].value;
    assert OfType(taskType)(row) ==> Listed(dbs, taskType, TaskOf(db, row));
    if TaskOf(db, row) in tasks {
      OnlyItsRow(dbs, taskType, TaskOf(db, row), db, i);
    }
    if TaskOf(db, row) in first {
      var m: nat :| m < |first| && first[m] == TaskOf(db, row);
      assert tasks[m] in tasks;
      MarkedRow(dbs, first, publish, 0, m, db, i);
      assert RowAt(MarkAll(dbs, first, publish, 0), db, i) == AfterAttempt(row, publish(m));
    } else {
      hide Listed, OfType;
      forall j | 0 <= j < |first| ensures first[j].ref != Ref(db, row.id) {
        assert tasks[j] in tasks && first[j] in first;
        if first[j].ref == Ref(db, row.id) {
          OnlyItsRow(dbs, taskType, first[j], db, i);
        }
      }
      UntouchedRow(dbs, first, publish, 0, db, i);
    }
  }

  lemma OnlyItsRow(dbs: Databases, taskType: string, t: Task, db: string, i: nat)
    requires PrimaryKeys(dbs) && HasRow(dbs, db, i) && Listed(dbs, taskType, t)
             && t.ref == Ref(db, RowAt(dbs, db, i).id)
    ensures OfType(taskType)(RowAt(dbs, db, i)) && t == TaskOf(db, RowAt(dbs, db, i))
  {
    var rows := dbs[db].value;
    var r :| r in rows && OfType(taskType)(r) && t == TaskOf(db, r);
    var j :| 0 <= j < |rows| && rows[j] == r;
    assert DistinctIds(rows);
    assert j == i;
  }
}
