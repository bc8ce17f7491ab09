/** Replaying a run's event log to a client while others append to it. */
module EventStream {
  import opened RunSpec
  import opened RunSteps
  import opened RunTheorems
  import opened RunEffects

  /** A stored event; sequence numbers are stored, not computed from the position. */
  datatype Record = Record(sequenceNo: int, event: Event)

  /** The log of one run, oldest first, numbered 1, 2, ... */
  ghost predicate Numbered(log: seq<Record>) {
    forall i :: 0 <= i < |log| ==> log[i].sequenceNo == i + 1
  }

  // ----- the two stores

  /** The in-memory store: the list's length plus one. */
  function Stored(log: seq<Record>, e: Event): seq<Record> {
    log + [Record(|log| + 1, e)]
  }

  function StoredAll(log: seq<Record>, es: seq<Event>): seq<Record>
    decreases |es|
  {
    if es == [] then log else StoredAll(Stored(log, es[0]), es[1..])
  }

  /** `COALESCE(MAX(sequence_no), 0)` */
  function MaxNo(rows: seq<Record>): int {
    if rows == [] then 0
    else
      var rest := MaxNo(rows[1..]);
      if |rows| == 1 || rows[0].sequenceNo > rest then rows[0].sequenceNo else rest
  }

  /** The MySQL store: the largest number plus one. */
  function Inserted(rows: seq<Record>, e: Event): seq<Record> {
    rows + [Record(MaxNo(rows) + 1, e)]
  }

  lemma {:induction false} MaxNoIs(rows: seq<Record>, first: int)
    requires rows != [] && forall i :: 0 <= i < |rows| ==> rows[i].sequenceNo == first + i
    ensures MaxNo(rows) == first + |rows| - 1
  {
    if |rows| > 1 {
      MaxNoIs(rows[1..], first + 1);
    } else {
      assert rows[0].sequenceNo == first;
    }
  }

  /** On a numbered log both stores append the same record, and the log stays numbered. */
  lemma StoresAgree(log: seq<Record>, e: Event)
    requires Numbered(log)
    ensures Inserted(log, e) == Stored(log, e) && Numbered(Stored(log, e))
  {
    if log != [] {
      MaxNoIs(log, 1);
    }
  }

  lemma {:induction false} StoredAllSpec(log: seq<Record>, es: seq<Event>)
    requires Numbered(log)
    ensures Numbered(StoredAll(log, es)) && log <= StoredAll(log, es) && |StoredAll(log, es)| == |log| + |es|
    decreases |es|
  {
    if es != [] {
      StoredAllSpec(Stored(log, es[0]), es[1..]);
    }
  }

  /** Where a client that has `after` stands in the log. */
  function From(after: int): nat {
    if after < 0 then 0 else after
  }

  /** list_after, in either store: on a numbered log, a suffix of it. */
  method ListAfter(log: seq<Record>, after: int) returns (found: seq<Record>)
    requires Numbered(log)
    ensures found == if From(after) <= |log| then log[From(after)..] else []
  {
    found := [];
    for k := 0 to |log|
      invariant found == if From(after) <= k then log[From(after)..k] else []
    {
      if log[k].sequenceNo > after {
        found := found + [log[k]];
      }
    }
  }

  /** _should_close_stream */
  predicate Closes(e: Event) {
    e.RunCompleted? || e.RunFailed? || e.RunCancelled? || e.ToolCallWaitingHuman?
  }

  // ----- streaming

  /** What a client holds after a connection: a stretch of the log starting right after the number it
      asked from, with no closing event before the last. */
  ghost predicate Delivered(log: seq<Record>, after: int, got: seq<Record>) {
    && (got != [] ==> From(after) + |got| <= |log| && got == log[From(after)..From(after) + |got|])
    && (forall i :: 0 <= i < |got| - 1 ==> !Closes(got[i].event))
  }

  datatype End =
    | Closed          // the stream ended by itself
    | LeftReading     // the client went away when handed an event
    | LeftWaiting     // the client went away while the stream was waiting

  /** What a stream has handed over so far, none of it closing. */
  ghost predicate Open(log: seq<Record>, after: int, got: seq<Record>, current: int) {
    && Numbered(log) && Delivered(log, after, got)
    && (if got == [] then current == after else current == From(after) + |got| && !Closes(got[|got| - 1].event))
  }

  lemma HandedOne(log: seq<Record>, after: int, got: seq<Record>, current: int)
    requires Open(log, after, got, current) && From(after) + |got| < |log|
    ensures var more := got + [log[From(after) + |got|]];
            && Delivered(log, after, more)
            && more[|more| - 1].sequenceNo == From(after) + |more|
  {}

  lemma LogGrows(log: seq<Record>, longer: seq<Record>, after: int, got: seq<Record>)
    requires Delivered(log, after, got) && log <= longer
    ensures Delivered(longer, after, got)
  {}

  /** With nothing left to list, the last event handed over is the last of the log. */
  lemma Drained(log: seq<Record>, after: int, got: seq<Record>, current: int)
    requires Open(log, after, got, current) && (From(current) < |log| ==> log[From(current)..] == [])
    ensures |log| <= From(after) + |got|
    ensures got != [] ==> log != [] && log[|log| - 1] == got[|got| - 1]
    ensures got != [] ==> !Closes(got[|got| - 1].event)
    ensures got == [] ==> current == after
  {}

  lemma Opening(log: seq<Record>, after: int)
    requires Numbered(log)
    ensures Open(log, after, [], after)
  {}

  lemma OpenFacts(log: seq<Record>, after: int, got: seq<Record>, current: int)
    requires Open(log, after, got, current)
    ensures Numbered(log) && Delivered(log, after, got) && From(current) == From(after) + |got|
  {}

  /** Others append: what has been handed over stays as it is. */
  lemma StaysOpen(log: seq<Record>, after: int, got: seq<Record>, current: int, es: seq<Event>)
    requires Open(log, after, got, current)
    ensures log <= StoredAll(log, es) && Open(StoredAll(log, es), after, got, current)
  {
    StoredAllSpec(log, es);
    LogGrows(log, StoredAll(log, es), after, got);
  }

  /** The `for` loop: hand over the listed events one by one. Others append while the client reads. */
  method HandOver(start: seq<Record>, after: int, before: seq<Record>, current: int, events: seq<Record>,
                  growth: seq<seq<Event>>, turn: nat)
    returns (got: seq<Record>, end: Option<End>, log: seq<Record>, next: nat, now: int)
    requires Open(start, after, before, current) && turn <= |growth| && events != []
    requires From(after) + |before| <= |start| && events == start[From(after) + |before|..]
    ensures Numbered(log) && start <= log && Delivered(log, after, got)
    ensures end.None? ==> Open(log, after, got, now) && turn < next <= |growth| && got != []
    ensures end.Some? ==>
              got != [] && (end.value == LeftReading || (end.value == Closed && Closes(got[|got| - 1].event)))
  {
    got, log, next, now := before, start, turn, current;
    var i := 0;
    while i < |events|
      invariant 0 <= i <= |events|
      invariant start <= log && |got| == |before| + i
      invariant Open(log, after, got, now)
      invariant turn + i == next <= |growth|
    {
      assert events[i] == log[From(after) + |got|];
      HandedOne(log, after, got, now);
      got := got + [events[i]];
      now := events[i].sequenceNo;
      if next == |growth| {
        return got, Some(LeftReading), log, next, now;
      }
      StoredAllSpec(log, growth[next]);
      LogGrows(log, StoredAll(log, growth[next]), after, got);
      log := StoredAll(log, growth[next]);
      next := next + 1;
      if Closes(events[i].event) {
        return got, Some(Closed), log, next, now;
      }
      i := i + 1;
    }
    end := None;
  }

  /** stream_events. At each suspension - handing over an event, or waiting for one - others append the
      next batch of `growth`; when there is none left, the client goes away. */
  method StreamEvents(start: seq<Record>, after: int, growth: seq<seq<Event>>)
    returns (got: seq<Record>, end: End, log: seq<Record>)
    requires Numbered(start)
    ensures Numbered(log) && start <= log
    ensures Delivered(log, after, got)
    ensures end == Closed && got != [] ==> Closes(got[|got| - 1].event)
    ensures end == Closed && got == [] ==> log != [] && |log| <= From(after) && Closes(log[|log| - 1].event)
    ensures end == LeftReading ==> got != []
    ensures end == LeftWaiting ==>
              From(after) + |got| >= |log| && (got != [] ==> !Closes(got[|got| - 1].event))
  {
    hide Open, Delivered, Numbered;
    log := start;
    got := [];
    var current := after;
    var turn := 0;
    Opening(start, after);
    while true
      invariant 0 <= turn <= |growth|
      invariant start <= log && Open(log, after, got, current)
      decreases |growth| - turn
    {
      OpenFacts(log, after, got, current);
      var events := ListAfter(log, current);
      if events != [] {
        var stop;
        got, stop, log, turn, current := HandOver(log, after, got, current, events, growth, turn);
        if stop.Some? {
          return got, stop.value, log;
        }
      } else {
        Drained(log, after, got, current);
        if log != [] && log[|log| - 1].sequenceNo <= current && Closes(log[|log| - 1].event) {
          return got, Closed, log;
        }
        if turn == |growth| {
          return got, LeftWaiting, log;
        }
        StaysOpen(log, after, got, current, growth[turn]);
        log := StoredAll(log, growth[turn]);
        turn := turn + 1;
      }
    }
  }

  // ----- reconnecting

  /** One connection: the log when it ended, what was asked for, and what was received. */
  datatype Connection = Connection(log: seq<Record>, after: int, got: seq<Record>) {
    ghost predicate Valid() {
      Numbered(log) && Delivered(log, after, got)
    }

    /** The number a client asks from next: the last it received. */
    function Last(): int {
      if got == [] then after else got[|got| - 1].sequenceNo
    }
  }

  /** Each connection asks from where the one before stopped; the log only grows. */
  ghost predicate Chain(cs: seq<Connection>) {
    && (forall i :: 0 <= i < |cs| ==> cs[i].Valid())
    && (forall i :: 0 <= i < |cs| - 1 ==> cs[i].log <= cs[i + 1].log && cs[i + 1].after == cs[i].Last())
  }

  function Received(cs: seq<Connection>): seq<Record> {
    if cs == [] then [] else Received(cs[..|cs| - 1]) + cs[|cs| - 1].got
  }

  /** A stretch of the log right after the number first asked from. */
  ghost predicate Stretch(log: seq<Record>, from: nat, all: seq<Record>) {
    all != [] ==> from + |all| <= |log| && all == log[from..from + |all|]
  }

  lemma StretchGrows(log: seq<Record>, longer: seq<Record>, from: nat, all: seq<Record>, more: seq<Record>)
    requires Stretch(log, from, all) && log <= longer && Stretch(longer, from + |all|, more)
    ensures Stretch(longer, from, all + more)
  {
    if all + more != [] {
      forall k | 0 <= k < |all + more|
        ensures from + k < |longer| && (all + more)[k] == longer[from + k]
      {
        if k < |all| {
          assert all[k] == log[from + k];
        } else {
          assert more[k - |all|] == longer[from + |all|..from + |all| + |more|][k - |all|];
        }
      }
    }
  }

  /** However often a client reconnects with the last number it received, what it has received in all
      is one stretch of the log, right after the number it first asked from: no gap, no repeat. */
  lemma {:induction false} ReconnectingIsGapless(cs: seq<Connection>)
    requires Chain(cs) && cs != []
    ensures Stretch(cs[|cs| - 1].log, From(cs[0].after), Received(cs))
    ensures From(cs[|cs| - 1].Last()) == From(cs[0].after) + |Received(cs)|
    decreases |cs|
  {
    hide Stretch, Delivered, Numbered;
    var last := cs[|cs| - 1];
    var rest := cs[..|cs| - 1];
    LastOf(last);
    OneStretch(last);
    if rest == [] {
      assert Received(rest) == [] && [] + last.got == last.got;
    } else {
      assert rest[|rest| - 1] == cs[|cs| - 2];
      ReconnectingIsGapless(rest);
      StretchGrows(cs[|cs| - 2].log, last.log, From(cs[0].after), Received(rest), last.got);
    }
  }

  lemma OneStretch(c: Connection)
    requires c.Valid()
    ensures Stretch(c.log, From(c.after), c.got)
  {}

  lemma LastOf(c: Connection)
    requires c.Valid()
    ensures From(c.Last()) == From(c.after) + |c.got|
  {}

  // ----- what closing means

  /** The stored log of a run. */
  ghost predicate LogOf(log: seq<Record>, s: State, r: RunId) {
    Numbered(log) && |log| == |Log(s, r)| && forall i :: 0 <= i < |log| ==> log[i].event == Log(s, r)[i]
  }

  /** If the last event so far is one of the three that close a run, the run is over. */
  lemma ClosedByRunMeansOver(s: State, r: RunId)
    requires Inv(s) && r in s.runs && Log(s, r) != []
    requires var e := Log(s, r)[|Log(s, r)| - 1]; e.RunCompleted? || e.RunFailed? || e.RunCancelled?
    ensures !IsActive(s.runs[r].status)
  {
    assert RunOk(s, r);
  }

  /** A client whose stream closed at a completion or a failure has everything that was logged after the
      number it asked from, and everything that ever will be. */
  lemma ClosedStreamIsWhole(steps: seq<Step>, s: State, r: RunId, log: seq<Record>, after: int, got: seq<Record>,
      later: seq<Step>, last: State)
    requires History(Empty, steps, s) && r in s.runs && LogOf(log, s, r) && Delivered(log, after, got)
    requires got != [] && IsFinal(got[|got| - 1].event)
    requires History(s, later, last)
    ensures got == log[From(after)..] && !IsActive(s.runs[r].status)
    ensures r in last.runs && LogOf(log, last, r)
  {
    ReachableFinalLast(steps, s, r);
    hide History, Inv, FinalLast, Delivered, From, Numbered, IsFinal;
    DeliveredToTheEnd(log, Log(s, r), after, got);
    EndsFinally(s, r);
    FinalLogStays(s, later, last, r);
    hide LogOf;
    SameLogOf(log, s, last, r);
  }

  lemma SameLogOf(log: seq<Record>, s: State, last: State, r: RunId)
    requires LogOf(log, s, r) && Log(last, r) == Log(s, r)
    ensures LogOf(log, last, r)
  {}

  lemma DeliveredToTheEnd(log: seq<Record>, events: seq<Event>, after: int, got: seq<Record>)
    requires |log| == |events| && (forall i :: 0 <= i < |log| ==> log[i].event == events[i]) && FinalLast(events)
    requires Delivered(log, after, got) && got != [] && IsFinal(got[|got| - 1].event)
    ensures got == log[From(after)..] && events != [] && IsFinal(events[|events| - 1])
  {
    var end := From(after) + |got| - 1;
    assert log[end] == got[|got| - 1];
    assert end == |log| - 1;
  }

  /** A client whose stream closed at a cancellation that is still the end of the log can miss what comes
      later: there is an admissible step that logs more exactly if the run's task is still in flight. */
  lemma ClosedAtCancellation(s: State, r: RunId)
    requires Inv(s) && r in s.runs && Log(s, r) != [] && Log(s, r)[|Log(s, r)| - 1].RunCancelled?
    ensures WellFormed(s) && s.runs[r].status == Cancelled
    ensures (exists step :: Admissible(s, step) && Log(Exec(s, step).0, r) != Log(s, r)) <==> IsCarried(s, r)
  {
    RunOkParts(s, r);
    assert s.runs[r].status == Cancelled;
    MoreCanBeLoggedIff(s, r);
    hide Inv, WellFormed, Exec;
  }

  /** A client whose stream closed at the cancellation, holding the whole log of that moment, and the two
      events that followed. */
  lemma MissedEvents() returns (s: State, last: State, log: seq<Record>)
    ensures Reached([CREATE1] + [START1] + [Cancel(1)], s)
    ensures Reached([CREATE1] + [START1] + [Cancel(1)] + [StreamEnds(100)], last)
    ensures LogOf(log, s, 1) && Delivered(log, 0, log) && log != [] && Closes(log[|log| - 1].event)
    ensures Log(last, 1) == Log(s, 1) + [MessageCompleted(""), RunCompleted]
  {
    hide Reached, CREATE1, START1;
    s, last := CompletedAfterCancellation();
    log := Recorded(Log(s, 1));
  }

  /** Events as a store numbers them. */
  function Recorded(events: seq<Event>): (log: seq<Record>)
    ensures |log| == |events| && forall i :: 0 <= i < |log| ==> log[i] == Record(i + 1, events[i])
  {
    seq(|events|, i requires 0 <= i < |events| => Record(i + 1, events[i]))
  }
}
