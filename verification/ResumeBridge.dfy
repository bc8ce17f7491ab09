/** From a wrapper's interrupt to a tool call, and from a decision of the API to a resume command. */
module ResumeBridge {
  import opened Json
  import opened HumanApproval
  import RunSpec

  const ACTIONS: seq<string> := ["approve", "reject", "edit"]

  // ----- allowed actions

  /** What the loop of normalize_allowed_actions keeps of the items still to come. */
  function Kept(items: seq<Value>, already: seq<string>): seq<string> {
    if items == [] then already
    else
      var action := Strip(StrOr(items[0], ""));
      Kept(items[1..], if action in ACTIONS && action !in already then already + [action] else already)
  }

  function RawActions(request: Fields): Value {
    var raw := Get(request, "allowedActions");
    if raw == Null then Get(request, "allowed_actions") else raw
  }

  function AllowedActions(request: Fields): seq<string> {
    var raw := RawActions(request);
    if !raw.List? then ACTIONS
    else
      var kept := Kept(raw.items, []);
      if kept == [] then ACTIONS else kept
  }

  /** normalize_allowed_actions, as the loop it is. */
  method NormalizeAllowedActions(request: Fields) returns (normalized: seq<string>)
    ensures normalized == AllowedActions(request)
  {
    hide Strip, StrOr;
    var raw := RawActions(request);
    if !raw.List? {
      return ACTIONS;
    }
    normalized := [];
    for i := 0 to |raw.items|
      invariant Kept(raw.items, []) == Kept(raw.items[i..], normalized)
    {
      assert raw.items[i..][1..] == raw.items[i + 1..];
      var action := Strip(StrOr(raw.items[i], ""));
      if action in ACTIONS && action !in normalized {
        normalized := normalized + [action];
      }
    }
    assert raw.items[|raw.items|..] == [];
    if normalized == [] {
      normalized := ACTIONS;
    }
  }

  /** An action named by one of the items, blanks at its ends aside. */
  ghost predicate Names(items: seq<Value>, action: string) {
    exists i :: 0 <= i < |items| && Strip(StrOr(items[i], "")) == action
  }

  ghost predicate Distinct(s: seq<string>) {
    forall i, j :: 0 <= i < j < |s| ==> s[i] != s[j]
  }

  lemma {:induction false} KeptSpec(items: seq<Value>, already: seq<string>)
    requires Distinct(already) && forall a :: a in already ==> a in ACTIONS
    ensures Distinct(Kept(items, already)) && already <= Kept(items, already)
    ensures forall a :: a in Kept(items, already) <==> a in already || (a in ACTIONS && Names(items, a))
    decreases |items|
  {
    hide Strip, StrOr;
    if items != [] {
      var action := Strip(StrOr(items[0], ""));
      var next := if action in ACTIONS && action !in already then already + [action] else already;
      KeptSpec(items[1..], next);
      forall a ensures Names(items, a) <==> a == action || Names(items[1..], a) {
        if Names(items, a) && a != action {
          var i :| 0 <= i < |items| && Strip(StrOr(items[i], "")) == a;
          assert items[1..][i - 1] == items[i];
        }
        if Names(items[1..], a) {
          var i :| 0 <= i < |items[1..]| && Strip(StrOr(items[1..][i], "")) == a;
          assert items[i + 1] == items[1..][i];
        }
        assert a == action ==> Strip(StrOr(items[0], "")) == a;
      }
    }
  }

  /** Never empty, no repeats, known actions only; exactly the listed ones if any listed one is known,
      all three otherwise. */
  lemma AllowedActionsSpec(request: Fields)
    ensures var r := AllowedActions(request);
            && r != [] && Distinct(r) && (forall a :: a in r ==> a in ACTIONS)
            && (forall a :: a in ACTIONS ==>
                  (a in r <==>
                    var raw := RawActions(request);
                    raw.List? && (exists b :: b in ACTIONS && Names(raw.items, b)) ==> Names(raw.items, a)))
  {
    hide Strip, StrOr, Names;
    var raw := RawActions(request);
    if raw.List? {
      KeptSpec(raw.items, []);
      var kept := Kept(raw.items, []);
      if kept == [] {
        forall b | b in ACTIONS ensures !Names(raw.items, b) {
          assert b !in kept;
        }
      } else {
        assert kept[0] in kept;
      }
    }
  }

  function Texts(actions: seq<string>): seq<Value> {
    seq(|actions|, i requires 0 <= i < |actions| => Text(actions[i]))
  }

  lemma KnownActionsPlain(action: string)
    requires action in ACTIONS
    ensures Strip(StrOr(Text(action), "")) == action
  {
    StripNothing(action);
  }

  lemma {:induction false} KeptPlain(actions: seq<string>, already: seq<string>)
    requires Distinct(already + actions) && forall a :: a in already + actions ==> a in ACTIONS
    ensures Kept(Texts(actions), already) == already + actions
    decreases |actions|
  {
    hide Strip, StrOr;
    if actions == [] {
      assert already + actions == already;
    } else {
      var a := actions[0];
      assert (already + actions)[|already|] == a;
      assert a in already + actions;
      KnownActionsPlain(a);
      assert Texts(actions)[0] == Text(a) && Texts(actions)[1..] == Texts(actions[1..]);
      forall i | 0 <= i < |already| ensures already[i] != a {
        assert (already + actions)[i] == already[i];
      }
      assert already + [a] + actions[1..] == already + actions;
      KeptPlain(actions[1..], already + [a]);
    }
  }

  /** Normalising what was normalised changes nothing. */
  lemma AllowedActionsIdempotent(request: Fields, again: Fields)
    requires Get(again, "allowedActions") == List(Texts(AllowedActions(request)))
    ensures AllowedActions(again) == AllowedActions(request)
  {
    hide Strip, StrOr;
    AllowedActionsSpec(request);
    var r := AllowedActions(request);
    assert [] + r == r;
    KeptPlain(r, []);
  }

  // ----- interrupt to tool call

  /** What HITLWrappedTool._interrupt_for_approval raises. */
  function WrapperInterrupt(tool: string, payload: Fields, title: string, description: string, risk: string,
                            allowed: seq<string>): Fields
  {
    map["toolName" := Text("human_approval"),
        "args" := Object(map["values" := Object(payload), "action" := Text(tool)]),
        "request" := Object(map["title" := Text(title), "description" := Text(description),
                                "riskLevel" := Text(risk), "allowedActions" := List(Texts(allowed))])]
  }

  datatype Interrupt = Interrupt(toolName: string, action: string, args: Fields, request: Fields) | BadInterrupt

  /** `payload.get(a) or payload.get(b) or ""` */
  function FirstTruthy(a: Value, b: Value): Value {
    if Truthy(a) then a else if Truthy(b) then b else Text("")
  }

  /** HumanInterruptPayload.from_raw */
  function ParseInterrupt(payload: Fields): Interrupt {
    var toolName := Strip(Str(FirstTruthy(Get(payload, "toolName"), Get(payload, "tool_name"))));
    if toolName != "human_approval" && toolName != "human_input" then BadInterrupt
    else
      var args0 := Get(payload, "args");
      var args1 := if args0 == Null then Get(payload, "arguments") else args0;
      var args := if args1 == Null then Object(map[]) else args1;
      if !args.Object? then BadInterrupt
      else
        var request0 := Get(payload, "request");
        var request := if request0 == Null then Object(DefaultRequest(args.entries)) else request0;
        if !request.Object? then BadInterrupt
        else
          var action := Strip(Str(FirstTruthy(Get(payload, "action"), Get(args.entries, "action"))));
          if action == "" then BadInterrupt
          else Interrupt(toolName, action, args.entries, request.entries)
  }

  function DefaultRequest(args: Fields): Fields {
    map["title" := Text(Strip(StrOr(Get(args, "title"), "人工确认"))),
        "description" := Text(Strip(StrOr(Get(args, "description"), "请确认后继续执行。"))),
        "riskLevel" := Text(Strip(Str(FirstTruthy(Get(args, "riskLevel"),
                                                   if Truthy(Get(args, "risk_level")) then Get(args, "risk_level")
                                                   else Text("medium")))))]
  }

  /** build_human_request */
  function HumanRequest(toolName: string, request: Fields): Fields {
    map["kind" := Text(if toolName == "human_approval" then "approval" else "input"),
        "title" := Text(Strip(StrOr(Get(request, "title"), "人工确认"))),
        "description" := Get(request, "description"),
        "allowedActions" := List(Texts(AllowedActions(request)))]
  }

  datatype ToolCall = ToolCall(name: string, input: Fields, humanRequest: Fields)

  /** The record on_tool_call_started stores. */
  function CallFor(i: Interrupt): ToolCall
    requires i.Interrupt?
  {
    ToolCall(i.toolName, i.args, HumanRequest(i.toolName, i.request))
  }

  // ----- decision to command

  datatype Resume = Command(payload: Fields) | NotAllowed(action: string, allowed: seq<string>)

  function ParsedAction(actionPayload: Fields): string {
    RunSpec.ParsedAction(StrOr(Get(actionPayload, "action"), "reject"))
  }

  function ParsedValues(actionPayload: Fields): Fields {
    var values := Get(actionPayload, "values");
    if values.Object? then values.entries else map[]
  }

  function Decision(fields: Fields): Fields {
    map["decisions" := List([Object(fields)])]
  }

  /** build_command_resume_payload */
  function BuildCommand(call: ToolCall, actionPayload: Fields): Resume {
    var action := ParsedAction(actionPayload);
    var allowed := AllowedActions(call.humanRequest);
    if action !in allowed then NotAllowed(action, allowed)
    else
      var base := Get(call.input, "values");
      var merged := (if base.Object? then base.entries else map[]) + ParsedValues(actionPayload);
      if action == "approve" then Command(Decision(map["type" := Text("approve")]))
      else if action == "reject" then
        var reason := Get(actionPayload, "reason");
        Command(Decision(map["type" := Text("reject"), "message" := if Truthy(reason) then reason else Text("")]))
      else
        var name := Strip(Str(if Truthy(Get(call.input, "action")) then Get(call.input, "action")
            else Text(call.name)));
        Command(Decision(map["type" := Text("edit"),
                             "edited_action" := Object(map["name" := Text(name), "args" := Object(merged)])]))
  }

  // ----- the bridge preserves the decision

  /** What a decision of the API means for a payload: the new values overlay the old ones. */
  function Meaning(payload: Fields, actionPayload: Fields): Verdict {
    var action := ParsedAction(actionPayload);
    if action == "approve" then Approve(payload)
    else if action == "edit" then Edit(payload + ParsedValues(actionPayload))
    else Reject(StrOr(Get(actionPayload, "reason"), "human_rejected"))
  }

  function WrapperArgs(tool: string, payload: Fields): Fields {
    map["values" := Object(payload), "action" := Text(tool)]
  }

  lemma WrapperParses(tool: string, payload: Fields, title: string, description: string, risk: string,
      allowed: seq<string>)
    requires Strip(tool) != ""
    ensures var i := ParseInterrupt(WrapperInterrupt(tool, payload, title, description, risk, allowed));
            && i.Interrupt? && i.toolName == "human_approval" && i.action == Strip(tool)
            && i.args == WrapperArgs(tool, payload)
            && Get(i.request, "allowedActions") == List(Texts(allowed))
  {
    StripNothing("human_approval");
    assert tool != "" by {
      if tool == "" {
        StripNothing("");
      }
    }
    hide Strip, Texts, DefaultRequest;
    var w := WrapperInterrupt(tool, payload, title, description, risk, allowed);
    assert Get(w, "toolName") == Text("human_approval") && Get(w, "action") == Null;
    assert Get(w, "args") == Object(WrapperArgs(tool, payload)) && Get(w, "request").Object?;
    assert Get(WrapperArgs(tool, payload), "action") == Text(tool);
    hide WrapperInterrupt;
  }

  /** A wrapper's interrupt is accepted, and its call keeps the payload, the tool and the actions. */
  lemma WrapperCall(tool: string, payload: Fields, title: string, description: string, risk: string,
      allowed: seq<string>)
    requires Strip(tool) != ""
    ensures var i := ParseInterrupt(WrapperInterrupt(tool, payload, title, description, risk, allowed));
            && i.Interrupt? && i.toolName == "human_approval" && i.action == Strip(tool)
            && Get(CallFor(i).input, "values") == Object(payload) && Get(CallFor(i).input, "action") == Text(tool)
            && AllowedActions(CallFor(i).humanRequest) == AllowedActions(i.request)
            && RawActions(i.request) == List(Texts(allowed))
  {
    WrapperParses(tool, payload, title, description, risk, allowed);
    hide Strip, AllowedActions, ParseInterrupt, WrapperInterrupt, HumanRequest, Texts;
    KeepsActions(ParseInterrupt(WrapperInterrupt(tool, payload, title, description, risk, allowed)));
  }

  lemma KeepsActions(i: Interrupt)
    requires i.Interrupt?
    ensures AllowedActions(CallFor(i).humanRequest) == AllowedActions(i.request)
  {
    hide Strip, AllowedActions;
    AllowedActionsIdempotent(i.request, CallFor(i).humanRequest);
  }

  lemma LegacyKinds()
    ensures Strip(StrOr(Text("approve"), "")) == "approve"
    ensures Strip(StrOr(Text("reject"), "")) == "reject"
    ensures Strip(StrOr(Text("edit"), "")) == "edit"
  {
    KnownActionsPlain("approve");
    KnownActionsPlain("reject");
    KnownActionsPlain("edit");
  }

  lemma DecisionNormalizes(original: Fields, fields: Fields)
    ensures Normalize(original, Object(Decision(fields))) == NormalizeLegacy(original, Object(fields))
  {}

  /** Any call holding payload p: the command is built exactly for the actions its human request
      allows, and the wrapper reads it back as the decision that was made. */
  lemma CommandMeansDecision(call: ToolCall, payload: Fields, actionPayload: Fields)
    requires Get(call.input, "values") == Object(payload)
    ensures var c := BuildCommand(call, actionPayload);
            && (c.Command? <==> ParsedAction(actionPayload) in AllowedActions(call.humanRequest))
            && (c.Command? ==> Normalize(payload, Object(c.payload)) == Meaning(payload, actionPayload))
  {
    hide Strip, AllowedActions, Normalize;
    LegacyKinds();
    var action := ParsedAction(actionPayload);
    assert action in ["approve", "reject", "edit"];
    var c := BuildCommand(call, actionPayload);
    if c.Command? {
      if action == "approve" {
        DecisionNormalizes(payload, map["type" := Text("approve")]);
      } else if action == "reject" {
        var reason := Get(actionPayload, "reason");
        DecisionNormalizes(payload,
            map["type" := Text("reject"), "message" := if Truthy(reason) then reason else Text("")]);
      } else {
        var name := Strip(Str(if Truthy(Get(call.input, "action")) then Get(call.input, "action")
            else Text(call.name)));
        DecisionNormalizes(payload, map["type" := Text("edit"),
          "edited_action" := Object(map["name" := Text(name),
              "args" := Object(payload + ParsedValues(actionPayload))])]);
      }
    }
  }

  /** From the interrupt of a wrapper to the verdict of the same wrapper: whatever the API sends is
      refused unless its action is advertised, and otherwise arrives as it was meant. */
  lemma BridgePreservesDecision(
    tool: string, payload: Fields, title: string, description: string, risk: string, allowed: seq<string>,
    actionPayload: Fields)
    requires Strip(tool) != ""
    ensures var i := ParseInterrupt(WrapperInterrupt(tool, payload, title, description, risk, allowed));
            && i.Interrupt?
            && var c := BuildCommand(CallFor(i), actionPayload);
               && (c.Command? <==> ParsedAction(actionPayload) in AllowedActions(i.request))
               && (c.Command? ==> Normalize(payload, Object(c.payload)) == Meaning(payload, actionPayload))
  {
    hide Strip, AllowedActions, Normalize, BuildCommand, ParseInterrupt, WrapperInterrupt, CallFor, Meaning,
        ParsedAction, Get;
    WrapperCall(tool, payload, title, description, risk, allowed);
    var i := ParseInterrupt(WrapperInterrupt(tool, payload, title, description, risk, allowed));
    CommandMeansDecision(CallFor(i), payload, actionPayload);
  }
}
