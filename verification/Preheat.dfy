/** The worker's handler for rush inventory preheat tasks. */
module Preheat {
  import opened Outbox

  const TASK_TYPE := "program.rush_inventory_preheat"

  /** Times are whole seconds; the handler compares them printed to the second, and the column stores
      no more. */
  datatype Program = Program(status: int, openTime: Option<int>, preheatStatus: int)

  datatype ShowTime = ShowTime(id: int, programID: int, status: int, showTime: int)

  /** The worker's database: programs by id, show times as the listing orders them, outbox rows. */
  datatype World = World(programs: map<int, Program>, showTimes: seq<ShowTime>, outbox: Rows)

  datatype Payload = Payload(programID: int, expectedOpenTime: int, taskKey: string)

  /** One line of the joined listing. */
  datatype Record = Record(id: int, openTime: Option<int>)

  /** What the handler does to the outside, in order. */
  datatype Call =
    | ListShowTimes(programID: int)
    | PrimeRushRuntime(programID: int)
    | PrimeSeatLedger(showTimeID: int)
    | CommitPreheated(programID: int, updated: bool)
    | CommitProcessed
    | CommitConsumeFailed

  datatype Outcome = Done | SkipRetry | Retry   // nil, asynq.SkipRetry, any other error

  /** Which calls fail: the listing, the rush runtime, the k-th seat ledger, the final statement. */
  datatype Faults = Faults(listing: bool, runtime: bool, ledger: nat -> bool, commit: bool)

  // ----- statements

  /** ListByProgramID: live show times of a live program, in (show time, id) order. */
  function ListByProgramID(w: World, programID: int): seq<Record> {
    Joined(w.programs, w.showTimes, programID)
  }

  function Joined(programs: map<int, Program>, showTimes: seq<ShowTime>, programID: int): seq<Record> {
    if showTimes == [] then []
    else
      var st := showTimes[0];
      var rest := Joined(programs, showTimes[1..], programID);
      if st.programID == programID && st.status == 1 && programID in programs && programs[programID].status == 1
      then [Record(st.id, programs[programID].openTime)] + rest else rest
  }

  predicate StillDue(w: World, programID: int, expected: int) {
    programID in w.programs && w.programs[programID].status == 1 && w.programs[programID].openTime == Some(expected)
  }

  /** The transaction of MarkInventoryPreheatedByProgramAndTaskProcessed. */
  function Preheated(w: World, p: Payload): World {
    var programs := if StillDue(w, p.programID, p.expectedOpenTime)
                    then w.programs[p.programID := w.programs[p.programID].(preheatStatus := 2)] else w.programs;
    World(programs, w.showTimes, Update(MarkProcessed(TASK_TYPE, p.taskKey), w.outbox))
  }

  function Processed(w: World, p: Payload): World {
    w.(outbox := Update(MarkProcessed(TASK_TYPE, p.taskKey), w.outbox))
  }

  function ConsumeFailed(w: World, p: Payload): World {
    w.(outbox := Update(MarkConsumeFailed(TASK_TYPE, p.taskKey), w.outbox))
  }

  // ----- what the listing asks for

  /** The listed show times with an open time. */
  function Opening(records: seq<Record>): seq<int> {
    if records == [] then []
    else (if records[0].openTime.Some? then [records[0].id] else []) + Opening(records[1..])
  }

  ghost predicate AllOnTime(records: seq<Record>, expected: int) {
    forall i :: 0 <= i < |records| && records[i].openTime.Some? ==> records[i].openTime.value == expected
  }

  function LedgerCalls(ids: seq<int>): seq<Call> {
    if ids == [] then [] else LedgerCalls(ids[..|ids| - 1]) + [PrimeSeatLedger(ids[|ids| - 1])]
  }

  lemma OpeningAppend(records: seq<Record>, r: Record)
    ensures Opening(records + [r]) == Opening(records) + if r.openTime.Some? then [r.id] else []
  {
    if records == [] {
      assert records + [r] == [r] && [r][1..] == [];
    } else {
      assert (records + [r])[1..] == records[1..] + [r];
      OpeningAppend(records[1..], r);
    }
  }

  /** The collecting loop; None is the early exit on a differing open time. */
  method Collect(records: seq<Record>, expected: int) returns (ids: Option<seq<int>>)
    ensures ids.Some? <==> AllOnTime(records, expected)
    ensures ids.Some? ==> ids.value == Opening(records)
  {
    var found: seq<int> := [];
    for i := 0 to |records|
      invariant found == Opening(records[..i])
      invariant AllOnTime(records[..i], expected)
    {
      assert records[..i + 1] == records[..i] + [records[i]];
      OpeningAppend(records[..i], records[i]);
      if records[i].openTime.Some? {
        if records[i].openTime.value != expected {
          return None;
        }
        found := found + [records[i].id];
      }
    }
    assert records[..|records|] == records;
    ids := Some(found);
  }

  /** Ledgers in order, up to and including the first that fails. */
  ghost predicate PrimedUntilFault(ids: seq<int>, fails: nat -> bool, calls: seq<Call>) {
    exists k :: 0 <= k < |ids| && fails(k) && (forall j :: 0 <= j < k ==> !fails(j))
        && calls == LedgerCalls(ids[..k + 1])
  }

  /** The priming loop: ledgers in order, until one fails. */
  method PrimeLedgers(ids: seq<int>, fails: nat -> bool) returns (ok: bool, calls: seq<Call>)
    ensures ok <==> forall k :: 0 <= k < |ids| ==> !fails(k)
    ensures ok ==> calls == LedgerCalls(ids)
    ensures !ok ==> PrimedUntilFault(ids, fails, calls)
  {
    calls := [];
    for k := 0 to |ids|
      invariant calls == LedgerCalls(ids[..k])
      invariant forall j :: 0 <= j < k ==> !fails(j)
    {
      assert ids[..k + 1][..k] == ids[..k];
      calls := calls + [PrimeSeatLedger(ids[k])];
      assert calls == LedgerCalls(ids[..k + 1]);
      if fails(k) {
        return false, calls;
      }
    }
    assert ids[..|ids|] == ids;
    ok := true;
  }

  // ----- the handler

  /** The database as the handler sees it: `listed` when it lists, `now` when it makes its final
      statement, with anything done by others in between. */
  datatype Views = Views(listed: World, now: World)

  /** Everything was primed: the rush runtime, then every listed show time that has an open time. */
  function PrimedTrace(p: Payload, records: seq<Record>, updated: bool): seq<Call> {
    [ListShowTimes(p.programID), PrimeRushRuntime(p.programID)]
      + LedgerCalls(Opening(records)) + [CommitPreheated(p.programID, updated)]
  }

  /** What the handler promises, for the faults it meets and the databases it sees. */
  ghost predicate Handled(payload: Option<Payload>, v: Views, faults: Faults, outcome: Outcome, trace: seq<Call>,
      after: World) {
    if payload.None? then outcome == SkipRetry && trace == [] && after == v.now
    else
      var p := payload.value;
      var records := ListByProgramID(v.listed, p.programID);
      if faults.listing then
        outcome == Retry && after == v.now && trace == [ListShowTimes(p.programID)]
      else if !AllOnTime(records, p.expectedOpenTime) || Opening(records) == [] then
        && trace == [ListShowTimes(p.programID), CommitProcessed]
        && (if faults.commit then outcome == Retry && after == v.now
            else outcome == Done && after == Processed(v.now, p))
      else if faults.runtime || exists k :: 0 <= k < |Opening(records)| && faults.ledger(k) then
        && |trace| >= 3 && trace[..2] == [ListShowTimes(p.programID), PrimeRushRuntime(p.programID)]
        && trace[|trace| - 1] == CommitConsumeFailed && outcome == Retry
        && (if faults.runtime then |trace| == 3
            else PrimedUntilFault(Opening(records), faults.ledger, trace[2..|trace| - 1]))
        && after == (if faults.commit then v.now else ConsumeFailed(v.now, p))
      else
        && trace == PrimedTrace(p, records, StillDue(v.now, p.programID, p.expectedOpenTime) && !faults.commit)
        && (if faults.commit then outcome == Retry && after == v.now
            else outcome == Done && after == Preheated(v.now, p))
  }

  /** Handle. A missing payload is one that does not parse. */
  method Handle(payload: Option<Payload>, v: Views, faults: Faults)
    returns (outcome: Outcome, trace: seq<Call>, after: World)
    ensures Handled(payload, v, faults, outcome, trace, after)
  {
    hide Preheated, Processed, ConsumeFailed, ListByProgramID, Opening, LedgerCalls, StillDue, AllOnTime,
        PrimedUntilFault;
    after := v.now;
    if payload.None? {
      return SkipRetry, [], after;
    }
    var p := payload.value;
    trace := [ListShowTimes(p.programID)];
    if faults.listing {
      return Retry, trace, after;
    }
    var records := ListByProgramID(v.listed, p.programID);
    var ids := Collect(records, p.expectedOpenTime);
    if ids.None? || ids.value == [] {
      trace := trace + [CommitProcessed];
      if faults.commit {
        return Retry, trace, after;
      }
      return Done, trace, Processed(v.now, p);
    }
    trace := trace + [PrimeRushRuntime(p.programID)];
    var ok, calls := false, [];
    if !faults.runtime {
      ok, calls := PrimeLedgers(ids.value, faults.ledger);
      trace := trace + calls;
    }
    if !ok {
      trace := trace + [CommitConsumeFailed];
      assert trace[2..|trace| - 1] == calls;
      return Retry, trace, if faults.commit then v.now else ConsumeFailed(v.now, p);
    }
    trace := trace + [CommitPreheated(p.programID, StillDue(v.now, p.programID, p.expectedOpenTime) && !faults.commit)];
    if faults.commit {
      return Retry, trace, after;
    }
    return Done, trace, Preheated(v.now, p);
  }

  // ----- guarantees

  /** A program's preheat status is changed by the transaction only to 2, only of the task's program, and
      only if at that moment the program is live and still opens when the task says. */
  lemma PreheatOnlyIfStillDue(w: World, p: Payload, programID: int)
    requires programID in w.programs
    ensures Preheated(w, p).programs.Keys == w.programs.Keys
    ensures var before := w.programs[programID];
            var after := Preheated(w, p).programs[programID];
            && (after != before ==>
                programID == p.programID && before.status == 1 && before.openTime == Some(p.expectedOpenTime))
            && after == before.(preheatStatus := after.preheatStatus)
            && (after.preheatStatus == 2 <==>
                 (before.preheatStatus == 2
                     || (programID == p.programID && before.status == 1
                         && before.openTime == Some(p.expectedOpenTime))))
  {}

  /** The transaction closes the task even when the program is no longer due: it is then processed
      without anything having been preheated. */
  lemma ClosedWithoutPreheat(w: World, p: Payload, i: nat)
    requires i < |w.outbox| && w.outbox[i].taskType == TASK_TYPE && w.outbox[i].taskKey == p.taskKey
             && w.outbox[i].status == 1
    ensures Preheated(w, p).outbox[i].taskStatus == PROCESSED
    ensures Preheated(w, p).programs == w.programs <==>
            !StillDue(w, p.programID, p.expectedOpenTime) || w.programs[p.programID].preheatStatus == 2
  {
    if StillDue(w, p.programID, p.expectedOpenTime) {
      assert Preheated(w, p).programs[p.programID].preheatStatus == 2;
    }
  }

  /** The ledger calls of a full priming are one per opening show time, in listing order. */
  lemma {:induction false} LedgerCallsAt(ids: seq<int>, k: nat)
    requires k < |ids|
    ensures |LedgerCalls(ids)| == |ids| && LedgerCalls(ids)[k] == PrimeSeatLedger(ids[k])
  {
    var last := |ids| - 1;
    LedgerCallsLength(ids[..last]);
    if k < last {
      LedgerCallsAt(ids[..last], k);
    }
  }

  lemma {:induction false} LedgerCallsLength(ids: seq<int>)
    ensures |LedgerCalls(ids)| == |ids|
  {
    if ids != [] {
      LedgerCallsLength(ids[..|ids| - 1]);
    }
  }

  /** An id is opening exactly if a listed show time with an open time has it. */
  lemma {:induction false} OpeningMembers(records: seq<Record>, id: int)
    ensures id in Opening(records) <==>
              exists i :: 0 <= i < |records| && records[i].id == id && records[i].openTime.Some?
  {
    if records != [] {
      OpeningMembers(records[1..], id);
      if i :| 0 <= i < |records| && records[i].id == id && records[i].openTime.Some? {
        assert i > 0 ==> records[1..][i - 1] == records[i];
      }
      if i :| 0 <= i < |records[1..]| && records[1..][i].id == id && records[1..][i].openTime.Some? {
        assert records[i + 1] == records[1..][i];
      }
    }
  }

  // ----- whole histories

  /** Something that changes the database: anyone else, or the final statement of a handler that made its
      listing when the database was as at `listedAt`. */
  datatype Event =
    | Foreign
    | HandlerEnds(payload: Option<Payload>, listedAt: nat, faults: Faults, outcome: Outcome, trace: seq<Call>)

  ghost predicate IsPreheated(w: World, programID: int) {
    programID in w.programs && w.programs[programID].preheatStatus == 2
  }

  ghost predicate WasPreheated(worlds: seq<World>, i: nat, programID: int)
    requires i < |worlds|
  {
    exists j :: 0 <= j <= i && IsPreheated(worlds[j], programID)
  }

  /** Others may change anything. They do not declare a program preheated of their own accord, but one that
      writes back a whole row it read earlier can put back a preheat status that was there. */
  ghost predicate Happens(worlds: seq<World>, i: nat, e: Event)
    requires i + 1 < |worlds|
  {
    match e
    case Foreign => forall id :: IsPreheated(worlds[i + 1], id) ==> WasPreheated(worlds, i, id)
    case HandlerEnds(payload, listedAt, faults, outcome, trace) =>
      listedAt <= i && Handled(payload, Views(worlds[listedAt], worlds[i]), faults, outcome, trace, worlds[i + 1])
  }

  /** Any number of handlers, overlapping each other and the changes of others. */
  ghost predicate Chronicle(worlds: seq<World>, events: seq<Event>) {
    |worlds| == |events| + 1 && forall i :: 0 <= i < |events| ==> Happens(worlds, i, events[i])
  }

  /** The i-th event is a handler that primed the rush runtime and then every show time it had listed with
      an open time, and whose program was still due when it committed. */
  ghost predicate PrimedAt(worlds: seq<World>, events: seq<Event>, i: nat, programID: int)
    requires |worlds| == |events| + 1 && i < |events|
  {
    var e := events[i];
    && e.HandlerEnds? && e.listedAt <= i && e.outcome == Done
    && e.payload.Some? && e.payload.value.programID == programID
    && StillDue(worlds[i], programID, e.payload.value.expectedOpenTime)
    && e.trace == PrimedTrace(e.payload.value, ListByProgramID(worlds[e.listedAt], programID), true)
  }

  /** A program becomes preheated by the commit of such a handler, or by someone who puts back an earlier
      preheat status. */
  lemma OnlyPriming(worlds: seq<World>, events: seq<Event>, i: nat, programID: int)
    requires Chronicle(worlds, events) && i < |events|
    requires !IsPreheated(worlds[i], programID) && IsPreheated(worlds[i + 1], programID)
    ensures PrimedAt(worlds, events, i, programID) || (events[i].Foreign? && WasPreheated(worlds, i, programID))
  {
    assert Happens(worlds, i, events[i]);
    hide PrimedTrace, ListByProgramID, AllOnTime, Opening, Update, WasPreheated;
  }

  /** In every history a program that came to be preheated was primed for it, completely and in time. */
  lemma {:induction false} PreheatedByPriming(worlds: seq<World>, events: seq<Event>, n: nat, programID: int)
    requires Chronicle(worlds, events) && n <= |events|
    requires !IsPreheated(worlds[0], programID) && IsPreheated(worlds[n], programID)
    ensures exists i :: 0 <= i < n && PrimedAt(worlds, events, i, programID)
  {
    assert |worlds| == |events| + 1;
    hide Chronicle, PrimedAt, IsPreheated;
    if n > 0 {
      if j :| 0 <= j < n && IsPreheated(worlds[j], programID) {
        PreheatedByPriming(worlds, events, j, programID);
      } else {
        OnlyPriming(worlds, events, n - 1, programID);
      }
    }
  }

  /** What a full priming has called before its commit: the rush runtime first, then the seat ledger of
      every listed show time with an open time, and no other. */
  lemma PrimedBeforeCommit(p: Payload, records: seq<Record>, updated: bool, id: int)
    ensures var trace := PrimedTrace(p, records, updated);
            && |trace| >= 3 && trace[1] == PrimeRushRuntime(p.programID) && trace[|trace| - 1].CommitPreheated?
            && ((exists k :: 2 <= k < |trace| - 1 && trace[k] == PrimeSeatLedger(id)) <==>
                 (exists i :: 0 <= i < |records| && records[i].id == id && records[i].openTime.Some?))
  {
    var ids := Opening(records);
    var trace := PrimedTrace(p, records, updated);
    OpeningMembers(records, id);
    LedgerCallsLength(ids);
    forall k | 0 <= k < |ids| ensures trace[k + 2] == PrimeSeatLedger(ids[k]) {
      LedgerCallsAt(ids, k);
    }
    hide PrimedTrace, LedgerCalls, Opening;
    if id in ids {
      var k :| 0 <= k < |ids| && ids[k] == id;
      assert trace[k + 2] == PrimeSeatLedger(id);
    }
    if k :| 2 <= k < |trace| - 1 && trace[k] == PrimeSeatLedger(id) {
      assert trace[(k - 2) + 2] == PrimeSeatLedger(ids[k - 2]);
    }
  }

  // ----- two histories

  const NO_FAULTS := Faults(false, false, k => false, false)
  const TASK := Payload(1, 100, "k")

  function WorldOf(openTime: int, preheatStatus: int, outbox: Rows): World {
    World(map[1 := Program(1, Some(openTime), preheatStatus)], [ShowTime(5, 1, 1, 0)], outbox)
  }

  lemma OneOpening(openTime: int, preheatStatus: int, outbox: Rows)
    ensures var records := ListByProgramID(WorldOf(openTime, preheatStatus, outbox), 1);
            records == [Record(5, Some(openTime))] && Opening(records) == [5]
  {
    var w := WorldOf(openTime, preheatStatus, outbox);
    assert w.showTimes[1..] == [];
    assert Joined(w.programs, [], 1) == [];
    assert Joined(w.programs, w.showTimes, 1) == [Record(5, Some(openTime))] + [];
    assert [Record(5, Some(openTime))][1..] == [];
  }

  /** A handler lists a program that is due and commits after it was rescheduled: everything was primed, the
      task is processed, and nothing is preheated. */
  lemma RescheduledMeanwhile(row: Row)
    requires row.taskType == TASK_TYPE && row.taskKey == TASK.taskKey && row.status == 1 && row.taskStatus == PUBLISHED
    ensures var v := Views(WorldOf(100, 1, [row]), WorldOf(200, 1, [row]));
            var after := Preheated(v.now, TASK);
            && Handled(Some(TASK), v, NO_FAULTS, Done, PrimedTrace(TASK, [Record(5, Some(100))], false), after)
            && after.outbox[0].taskStatus == PROCESSED && after.programs == v.now.programs && !IsPreheated(after, 1)
  {
    OneOpening(100, 1, [row]);
    hide PrimedTrace, ListByProgramID, Opening;
  }

  /** A program is preheated, then rescheduled, then someone writes back the row read in between: it is
      preheated again, and no handler had a part in it. */
  lemma StaleStatusComesBack()
    ensures var worlds := [WorldOf(100, 1, []), WorldOf(100, 2, []), WorldOf(200, 1, []), WorldOf(100, 2, [])];
            var handler := HandlerEnds(Some(TASK), 0, NO_FAULTS, Done, PrimedTrace(TASK, [Record(5, Some(100))], true));
            var events := [handler, Foreign, Foreign];
            && Chronicle(worlds, events) && !IsPreheated(worlds[2], 1) && IsPreheated(worlds[3], 1)
            && PrimedAt(worlds, events, 0, 1) && !PrimedAt(worlds, events, 2, 1)
  {
    var worlds := [WorldOf(100, 1, []), WorldOf(100, 2, []), WorldOf(200, 1, []), WorldOf(100, 2, [])];
    OneOpening(100, 1, []);
    hide PrimedTrace, ListByProgramID, Opening;
    assert Preheated(worlds[0], TASK) == worlds[1];
    forall id | IsPreheated(worlds[3], id) ensures WasPreheated(worlds, 2, id) {
      assert IsPreheated(worlds[1], id);
    }
  }
}
