/** JSON-like values with the few Python conversions the approval code applies to them. */
module Json {
  import Decimal

  datatype Value =
    | Null
    | Bool(b: bool)
    | Number(n: int)
    | Text(s: string)
    | List(items: seq<Value>)
    | Object(entries: map<string, Value>)

  type Fields = map<string, Value>

  /** `mapping.get(key)` */
  function Get(m: Fields, key: string): Value {
    if key in m then m[key] else Null
  }

  predicate Truthy(v: Value) {
    match v
    case Null => false
    case Bool(b) => b
    case Number(n) => n != 0
    case Text(s) => s != ""
    case List(items) => items != []
    case Object(entries) => entries != map[]
  }

  /** `str(v)`; the inside of a container is abbreviated. */
  function Str(v: Value): string {
    match v
    case Null => "None"
    case Bool(b) => if b then "True" else "False"
    case Number(n) => Decimal.IntText(n)
    case Text(s) => s
    case List(_) => "[...]"
    case Object(_) => "{...}"
  }

  /** `str(v or default)` */
  function StrOr(v: Value, default: string): string {
    if Truthy(v) then Str(v) else default
  }

  predicate IsSpace(c: char) {
    c in " \t\n\r" || c == '\U{0B}' || c == '\U{0C}' || '\U{1C}' <= c <= '\U{1F}'
    || c == '\U{85}' || c == '\U{A0}' || c == '\U{1680}' || '\U{2000}' <= c <= '\U{200A}'
    || c == '\U{2028}' || c == '\U{2029}' || c == '\U{202F}' || c == '\U{205F}' || c == '\U{3000}'
  }

  function StripLeft(s: string): string {
    if s != [] && IsSpace(s[0]) then StripLeft(s[1..]) else s
  }

  function StripRight(s: string): string {
    if s != [] && IsSpace(s[|s| - 1]) then StripRight(s[..|s| - 1]) else s
  }

  /** `s.strip()` */
  function Strip(s: string): string {
    StripRight(StripLeft(s))
  }

  /** Text without blanks at its ends is its own strip. */
  lemma StripNothing(s: string)
    requires s == [] || (!IsSpace(s[0]) && !IsSpace(s[|s| - 1]))
    ensures Strip(s) == s
  {}
}

/** Write tools behind human approval: preview, ask, and on approval run; an edit starts over. */
module HumanApproval {
  import opened Json

  datatype Verdict = Approve(payload: Fields) | Edit(payload: Fields) | Reject(reason: string)

  /** _normalize_legacy_decision */
  function NormalizeLegacy(original: Fields, decision: Value): Verdict {
    if !decision.Object? then Reject("invalid_resume_payload")
    else
      var kind := Strip(StrOr(Get(decision.entries, "type"), ""));
      if kind == "approve" then Approve(original)
      else if kind == "edit" then
        var edited := Get(decision.entries, "edited_action");
        if !edited.Object? then Reject("invalid_resume_payload")
        else
          var args := Get(edited.entries, "args");
          if args.Object? then Edit(args.entries) else Reject("invalid_resume_payload")
      else Reject(StrOr(Get(decision.entries, "message"), "human_rejected"))
  }

  /** normalize_hitl_decision */
  function Normalize(original: Fields, decision: Value): Verdict {
    if !decision.Object? then Reject("invalid_resume_payload")
    else
      var decisions := Get(decision.entries, "decisions");
      if decisions.List? && decisions.items != [] then NormalizeLegacy(original, decisions.items[0])
      else
        var action := Strip(StrOr(Get(decision.entries, "action"), ""));
        if action == "approve" then Approve(original)
        else if action == "edit" then
          var values := Get(decision.entries, "values");
          if values.Object? then Edit(values.entries) else Reject("invalid_resume_payload")
        else Reject(StrOr(Get(decision.entries, "reason"), "human_rejected"))
  }

  /** Approval is always of the payload asked about. */
  lemma ApprovesOriginal(original: Fields, decision: Value)
    ensures Normalize(original, decision).Approve? ==> Normalize(original, decision).payload == original
  {}

  datatype Mode = PreviewThenApprove | ApproveOnly

  /** One act of an attempt. A preview or a write may raise; it has been made all the same. */
  datatype Act =
    | Preview(payload: Fields, answer: Answer)
    | Ask(payload: Fields, shown: Answer)     // the interrupt, with the preview it describes
    | Write(payload: Fields)

  datatype Answer = NoPreview | Gave(value: Value) | Raised

  datatype Ending =
    | Suspended                 // waiting for the decision on the last interrupt
    | Refused(preview: Value)   // allow_refund is false
    | PreviewFailed
    | Written
    | Declined(reason: string)

  datatype Attempt = Attempt(trace: seq<Act>, ending: Ending)

  /** `preview.get("allow_refund") is False` */
  predicate Refuses(answer: Answer) {
    answer.Gave? && answer.value.Object? && Get(answer.value.entries, "allow_refund") == Bool(false)
  }

  /** One execution of the wrapper from its beginning, with the decisions recorded so far: interrupts
      take them in order, and the first without one suspends. `previews(k)` answers the k-th preview
      call of this execution. */
  function Run(mode: Mode, payload: Fields, decisions: seq<Value>, previews: nat -> Answer, k: nat): Attempt
    decreases |decisions|
  {
    hide Normalize;
    var answer := if mode == ApproveOnly then NoPreview else previews(k);
    var seen := if mode == ApproveOnly then [] else [Preview(payload, answer)];
    if mode == PreviewThenApprove && answer == Raised then Attempt(seen, PreviewFailed)
    else if mode == PreviewThenApprove && Refuses(answer) then Attempt(seen, Refused(answer.value))
    else
      var asked := seen + [Ask(payload, answer)];
      if decisions == [] then Attempt(asked, Suspended)
      else
        match Normalize(payload, decisions[0])
        case Approve(values) => Attempt(asked + [Write(values)], Written)
        case Reject(reason) => Attempt(asked, Declined(reason))
        case Edit(values) =>
          var rest := Run(mode, values, decisions[1..], previews, k + 1);
          Attempt(asked + rest.trace, rest.ending)
  }

  // ----- one attempt

  predicate IsWrite(a: Act) { a.Write? }

  /** Writes: none unless the attempt ended written, and then exactly one, at the very end, on the
      payload just asked about, which in preview mode was just previewed and not refused. */
  ghost predicate WritesProperly(mode: Mode, a: Attempt) {
    var n := |a.trace|;
    && (forall i :: 0 <= i < n && IsWrite(a.trace[i]) ==> i == n - 1)
    && (a.ending == Written <==> n > 0 && IsWrite(a.trace[n - 1]))
    && (a.ending == Written ==>
          && n >= 2 && a.trace[n - 2].Ask? && a.trace[n - 2].payload == a.trace[n - 1].payload
          && (mode == PreviewThenApprove ==>
                && n >= 3 && a.trace[n - 3].Preview? && a.trace[n - 3].payload == a.trace[n - 1].payload
                && a.trace[n - 3].answer == a.trace[n - 2].shown
                && a.trace[n - 3].answer != Raised && !Refuses(a.trace[n - 3].answer)))
  }

  lemma Prepend(mode: Mode, before: seq<Act>, rest: Attempt)
    requires WritesProperly(mode, rest) && rest.trace != []
    requires forall i :: 0 <= i < |before| ==> !IsWrite(before[i])
    ensures WritesProperly(mode, Attempt(before + rest.trace, rest.ending))
  {
    hide Refuses;
    var all := before + rest.trace;
    forall i | 0 <= i < |all| && IsWrite(all[i]) ensures i == |all| - 1 {
      assert i >= |before|;
      assert all[i] == rest.trace[i - |before|];
    }
  }

  lemma {:induction false} RunWritesProperly(mode: Mode, payload: Fields, decisions: seq<Value>,
      previews: nat -> Answer, k: nat)
    ensures WritesProperly(mode, Run(mode, payload, decisions, previews, k))
    ensures Run(mode, payload, decisions, previews, k).trace != []
    decreases |decisions|
  {
    hide Normalize;
    if decisions != [] {
      ApprovesOriginal(payload, decisions[0]);
    }
    if decisions != [] && Normalize(payload, decisions[0]).Edit? {
      var values := Normalize(payload, decisions[0]).payload;
      var rest := Run(mode, values, decisions[1..], previews, k + 1);
      RunWritesProperly(mode, values, decisions[1..], previews, k + 1);
      var answer := if mode == ApproveOnly then NoPreview else previews(k);
      var asked := (if mode == ApproveOnly then [] else [Preview(payload, answer)]) + [Ask(payload, answer)];
      Prepend(mode, asked, rest);
    }
  }

  // ----- what the human sees

  /** The payload after a run of edits. */
  function Edited(payload: Fields, decisions: seq<Value>): (p: Option<Fields>)
    decreases |decisions|
  {
    hide Normalize;
    if decisions == [] then Some(payload)
    else
      match Normalize(payload, decisions[0])
      case Edit(values) => Edited(values, decisions[1..])
      case _ => None
  }

  datatype Option<T> = None | Some(value: T)

  /** A suspended attempt has used every decision as an edit, and its last act asks about the payload
      those edits lead to - whatever the previews answered. */
  lemma {:induction false} SuspendedAsksEdited(mode: Mode, payload: Fields, decisions: seq<Value>,
      previews: nat -> Answer, k: nat)
    requires Run(mode, payload, decisions, previews, k).ending == Suspended
    ensures Edited(payload, decisions).Some?
    ensures var t := Run(mode, payload, decisions, previews, k).trace;
            t != [] && t[|t| - 1].Ask? && t[|t| - 1].payload == Edited(payload, decisions).value
    decreases |decisions|
  {
    hide Normalize, Refuses;
    if decisions != [] {
      SuspendedAsksEdited(mode, Normalize(payload, decisions[0]).payload, decisions[1..], previews, k + 1);
    }
  }

  /** When all decisions but the last are edits, a write is on the payload they lead to, and the last
      decision approves it. */
  lemma {:induction false} WrittenIsApproved(mode: Mode, payload: Fields, edits: seq<Value>, last: Value,
      previews: nat -> Answer, k: nat)
    requires Edited(payload, edits).Some? && Run(mode, payload, edits + [last], previews, k).ending == Written
    ensures var t := Run(mode, payload, edits + [last], previews, k).trace;
            t != [] && t[|t| - 1] == Write(Edited(payload, edits).value)
    ensures Normalize(Edited(payload, edits).value, last) == Approve(Edited(payload, edits).value)
    decreases |edits|
  {
    hide Normalize, Refuses;
    var all := edits + [last];
    if edits == [] {
      assert all == [last];
      ApprovesOriginal(payload, last);
      EditDoesNotWrite(mode, payload, last, previews, k);
    } else {
      assert all[0] == edits[0] && all[1..] == edits[1..] + [last];
      WrittenIsApproved(mode, Normalize(payload, edits[0]).payload, edits[1..], last, previews, k + 1);
    }
  }

  lemma EditDoesNotWrite(mode: Mode, payload: Fields, last: Value, previews: nat -> Answer, k: nat)
    ensures Normalize(payload, last).Edit? ==> Run(mode, payload, [last], previews, k).ending != Written
  {
    hide Normalize, Refuses;
    if Normalize(payload, last).Edit? {
      assert [last][1..] == [];
      SuspendsOrStops(mode, Normalize(payload, last).payload, previews, k + 1);
    }
  }

  lemma SuspendsOrStops(mode: Mode, payload: Fields, previews: nat -> Answer, k: nat)
    ensures Run(mode, payload, [], previews, k).ending != Written
  {
    hide Normalize;
  }

  // ----- a whole approval, with replays

  /** The attempts of one tool call. The k-th replays the first k decisions from the start, with
      previews of its own; there is a next attempt only while the last one is suspended. */
  datatype Approval = Approval(mode: Mode, payload: Fields, decisions: seq<Value>, previews: seq<nat -> Answer>) {
    ghost predicate Valid() {
      && |previews| == |decisions| + 1
      && forall k :: 0 <= k < |decisions| ==> At(k).ending == Suspended
    }

    function At(k: nat): Attempt
      requires k < |previews| && k <= |decisions|
    {
      Run(mode, payload, decisions[..k], previews[k], 0)
    }

    function Last(): Attempt
      requires |previews| == |decisions| + 1
    {
      At(|decisions|)
    }
  }

  /** All acts of all attempts, in order. */
  function Acts(a: Approval, n: nat): seq<Act>
    requires n <= |a.previews| && n <= |a.decisions| + 1
  {
    if n == 0 then [] else Acts(a, n - 1) + a.At(n - 1).trace
  }

  lemma {:induction false} NoEarlyWrite(a: Approval, n: nat)
    requires a.Valid() && n <= |a.decisions|
    ensures forall i :: 0 <= i < |Acts(a, n)| ==> !IsWrite(Acts(a, n)[i])
  {
    hide Normalize, Refuses, Run;
    if n > 0 {
      NoEarlyWrite(a, n - 1);
      RunWritesProperly(a.mode, a.payload, a.decisions[..n - 1], a.previews[n - 1], 0);
      var t := a.At(n - 1).trace;
      assert forall i :: 0 <= i < |t| ==> !IsWrite(t[i]);
    }
  }

  /** For every sequence of human decisions, with edits and replays whose previews may change: over
      all attempts together the write tool is called at most once, as the very last act, and only
      when the last attempt ended written. */
  lemma WritesAtMostOnce(a: Approval)
    requires a.Valid()
    ensures var acts := Acts(a, |a.decisions| + 1);
            && (forall i :: 0 <= i < |acts| && IsWrite(acts[i]) ==> i == |acts| - 1)
            && ((exists i :: 0 <= i < |acts| && IsWrite(acts[i])) <==> a.Last().ending == Written)
            && WritesProperly(a.mode, a.Last())
  {
    hide Normalize, Refuses, Run;
    NoEarlyWrite(a, |a.decisions|);
    RunWritesProperly(a.mode, a.payload, a.decisions, a.previews[|a.decisions|], 0);
    assert a.decisions[..|a.decisions|] == a.decisions;
    var before := Acts(a, |a.decisions|);
    var t := a.Last().trace;
    var acts := before + t;
    if a.Last().ending == Written {
      assert IsWrite(acts[|acts| - 1]);
    }
    forall i | 0 <= i < |acts| && IsWrite(acts[i]) ensures i == |acts| - 1 && a.Last().ending == Written {
      assert i >= |before|;
      assert IsWrite(t[i - |before|]);
    }
  }

  /** The values written are the values in the interrupt the human approved: the one the attempt
      before was suspended at, answered by the last decision. */
  lemma WritesOnlyWhatWasApproved(a: Approval)
    requires a.Valid() && a.Last().ending == Written
    ensures |a.decisions| > 0
    ensures var shown := a.At(|a.decisions| - 1).trace;
            var done := a.Last().trace;
            && shown != [] && done != [] && shown[|shown| - 1].Ask?
            && done[|done| - 1] == Write(shown[|shown| - 1].payload)
            && Normalize(shown[|shown| - 1].payload, a.decisions[|a.decisions| - 1]) ==
                Approve(shown[|shown| - 1].payload)
  {
    hide Normalize, Refuses, Run;
    var n := |a.decisions|;
    assert a.decisions[..n] == a.decisions;
    if n == 0 {
      SuspendsOrStops(a.mode, a.payload, a.previews[0], 0);
    } else {
      var edits := a.decisions[..n - 1];
      assert edits + [a.decisions[n - 1]] == a.decisions;
      assert a.At(n - 1).ending == Suspended;
      SuspendedAsksEdited(a.mode, a.payload, edits, a.previews[n - 1], 0);
      WrittenIsApproved(a.mode, a.payload, edits, a.decisions[n - 1], a.previews[n], 0);
    }
  }

  // ----- the preview the human saw

  /** In preview mode a suspended attempt shows the answer of its last preview, which is of the payload it
      asks about. */
  lemma {:induction false} SuspendedShows(payload: Fields, decisions: seq<Value>, previews: nat -> Answer, k: nat)
    requires Run(PreviewThenApprove, payload, decisions, previews, k).ending == Suspended
    ensures Edited(payload, decisions).Some?
    ensures var t := Run(PreviewThenApprove, payload, decisions, previews, k).trace;
            var p := Edited(payload, decisions).value;
            var answer := previews(k + |decisions|);
            |t| >= 2 && t[|t| - 2] == Preview(p, answer) && t[|t| - 1] == Ask(p, answer)
    decreases |decisions|
  {
    hide Normalize, Refuses;
    if decisions != [] {
      SuspendedShows(Normalize(payload, decisions[0]).payload, decisions[1..], previews, k + 1);
    }
  }

  /** A write after a run of edits follows the preview of its own execution at that place. */
  lemma {:induction false} WriteFollows(payload: Fields, edits: seq<Value>, last: Value, previews: nat -> Answer,
      k: nat)
    requires Edited(payload, edits).Some?
             && Run(PreviewThenApprove, payload, edits + [last], previews, k).ending == Written
    ensures var t := Run(PreviewThenApprove, payload, edits + [last], previews, k).trace;
            |t| >= 3 && t[|t| - 3] == Preview(Edited(payload, edits).value, previews(k + |edits|))
    decreases |edits|
  {
    hide Normalize, Refuses;
    var all := edits + [last];
    if edits == [] {
      assert all == [last];
      EditDoesNotWrite(PreviewThenApprove, payload, last, previews, k);
    } else {
      assert all[0] == edits[0] && all[1..] == edits[1..] + [last];
      WriteFollows(Normalize(payload, edits[0]).payload, edits[1..], last, previews, k + 1);
    }
  }

  /** What the human saw in the approved interrupt, and what the preview right before the write said. */
  lemma PreviewsOfWrite(a: Approval)
    requires a.Valid() && a.mode == PreviewThenApprove && a.Last().ending == Written
    ensures var n := |a.decisions|;
            && n > 0 && Edited(a.payload, a.decisions[..n - 1]).Some?
            && var p := Edited(a.payload, a.decisions[..n - 1]).value;
            var shown, done := a.At(n - 1).trace, a.Last().trace;
            && |shown| >= 2 && shown[|shown| - 2] == Preview(p, a.previews[n - 1](n - 1))
            && shown[|shown| - 1] == Ask(p, a.previews[n - 1](n - 1))
            && |done| >= 3 && done[|done| - 3] == Preview(p, a.previews[n](n - 1))
  {
    hide Normalize, Refuses, Run;
    var n := |a.decisions|;
    assert a.decisions[..n] == a.decisions;
    if n == 0 {
      SuspendsOrStops(a.mode, a.payload, a.previews[0], 0);
    } else {
      var edits := a.decisions[..n - 1];
      assert edits + [a.decisions[n - 1]] == a.decisions;
      assert a.At(n - 1).ending == Suspended;
      SuspendedShows(a.payload, edits, a.previews[n - 1], 0);
      WriteFollows(a.payload, edits, a.decisions[n - 1], a.previews[n], 0);
    }
  }

  /** The preview the human approved is the one the write follows exactly if the preview tool answers the
      replayed call as it answered the call the human saw. */
  lemma PreviewIsCurrentIff(a: Approval)
    requires a.Valid() && a.mode == PreviewThenApprove && a.Last().ending == Written
    ensures var n := |a.decisions|;
            && n > 0
            && var shown, done := a.At(n - 1).trace, a.Last().trace;
            && shown != [] && shown[|shown| - 1].Ask? && |done| >= 3 && done[|done| - 3].Preview?
            && (shown[|shown| - 1].shown == done[|done| - 3].answer <==>
                a.previews[n - 1](n - 1) == a.previews[n](n - 1))
  {
    PreviewsOfWrite(a);
    hide Run, Normalize, Edited;
  }

  /** Every preview of every attempt answered as a function of the payload. */
  ghost predicate PureTool(a: Approval, tool: Fields -> Answer)
    requires |a.previews| == |a.decisions| + 1
  {
    forall k, i :: 0 <= k <= |a.decisions| && 0 <= i < |a.At(k).trace| && a.At(k).trace[i].Preview? ==>
      a.At(k).trace[i].answer == tool(a.At(k).trace[i].payload)
  }

  /** A preview tool that only looks at the payload is never stale. */
  lemma PureToolIsCurrent(a: Approval, tool: Fields -> Answer)
    requires a.Valid() && a.mode == PreviewThenApprove && a.Last().ending == Written && PureTool(a, tool)
    ensures var n := |a.decisions|;
            && n > 0
            && var shown, done := a.At(n - 1).trace, a.Last().trace;
            && shown != [] && shown[|shown| - 1].Ask? && |done| >= 3 && done[|done| - 3].Preview?
            && shown[|shown| - 1].shown == done[|done| - 3].answer
  {
    PreviewsOfWrite(a);
    hide Run, Normalize, Edited;
    var n := |a.decisions|;
    var shown, done := a.At(n - 1).trace, a.At(n).trace;
    assert shown[|shown| - 2].answer == tool(shown[|shown| - 2].payload);
    assert done[|done| - 3].answer == tool(done[|done| - 3].payload);
  }

  /** What the approval does not cover: the write is preceded by a fresh preview, which need not be the
      one the approved interrupt described. Here an amount changes from 100 to 20 in between. */
  lemma ApprovedPreviewMayBeStale(yes: Value)
    requires yes == Object(map["action" := Text("approve")])
    ensures var a := Approval(PreviewThenApprove, map[], [yes], [Always(100), Always(20)]);
            && a.Valid()
            && a.At(0) == Attempt([Preview(map[], Amount(100)), Ask(map[], Amount(100))], Suspended)
            && a.Last() == Attempt([Preview(map[], Amount(20)), Ask(map[], Amount(20)), Write(map[])], Written)
    ensures Amount(100) != Amount(20)
  {
    var a := Approval(PreviewThenApprove, map[], [yes], [Always(100), Always(20)]);
    assert a.decisions[..0] == [] && a.decisions[..1] == [yes];
    AmountsDiffer(100, 20);
    ShownAt(map[], 100);
    PlainApprove(map[], yes);
    WrittenAt(map[], yes, 20);
    hide Normalize, Amount, Always, Run, Refuses;
    assert a.At(0).ending == Suspended;
    assert a.Valid();
  }

  lemma ShownAt(payload: Fields, n: int)
    ensures Run(PreviewThenApprove, payload, [], Always(n), 0) ==
            Attempt([Preview(payload, Amount(n)), Ask(payload, Amount(n))], Suspended)
  {
    hide Normalize, Amount;
    AmountNotRefused(n);
  }

  lemma WrittenAt(payload: Fields, yes: Value, n: int)
    requires Normalize(payload, yes) == Approve(payload)
    ensures Run(PreviewThenApprove, payload, [yes], Always(n), 0) ==
            Attempt([Preview(payload, Amount(n)), Ask(payload, Amount(n)), Write(payload)], Written)
  {
    hide Normalize, Amount;
    AmountNotRefused(n);
  }

  function Amount(n: int): Answer { Gave(Object(map["refund_amount" := Number(n)])) }

  function Always(n: int): nat -> Answer { (k: nat) => Amount(n) }

  lemma AmountsDiffer(n: int, m: int)
    requires n != m
    ensures Amount(n) != Amount(m)
  {
    assert Amount(n).value.entries["refund_amount"] == Number(n);
    assert Amount(m).value.entries["refund_amount"] == Number(m);
  }

  lemma AmountNotRefused(n: int)
    ensures !Refuses(Amount(n)) && Amount(n) != Raised
  {}

  lemma PlainApprove(payload: Fields, decision: Value)
    requires decision == Object(map["action" := Text("approve")])
    ensures Normalize(payload, decision) == Approve(payload)
  {
    StripNothing("approve");
  }
}
