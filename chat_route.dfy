/** The chat route's tool mediation layer: every tool handed to the model is
    wrapped so that each call is risk-assessed, audited, and either blocked
    for step-up verification or run, with its outcome audited.  Also the
    route's two turn-level error hooks. */
module ChatRoute {
  import opened Js

  // ---------------------------------------------------------------------
  // Agent roles

  const GeneralistRole: string := "generalist-agent"

  /** The fixed tool-name to agent-role table. */
  const ToolAgentRoles: map<string, string> := map[
    "exaSearchTool" := "knowledge-agent",
    "getUserInfoTool" := "profile-agent",
    "gmailSearchTool" := "communication-agent",
    "gmailDraftTool" := "communication-agent",
    "getCalendarEventsTool" := "scheduler-agent",
    "createCalendarEventTool" := "scheduler-agent",
    "shopOnlineTool" := "commerce-agent",
    "getContextDocumentsTool" := "knowledge-agent"
  ]

  /** The tools the route hands to the model, in declaration order. */
  const BaseTools: seq<string> := [
    "exaSearchTool", "getUserInfoTool", "gmailSearchTool", "gmailDraftTool",
    "getCalendarEventsTool", "createCalendarEventTool", "shopOnlineTool",
    "getContextDocumentsTool"
  ]

  /** `TOOL_AGENT_ROLES[toolName] ?? 'generalist-agent'` */
  function AgentRole(toolName: string): string {
    if toolName in ToolAgentRoles then ToolAgentRoles[toolName] else GeneralistRole
  }

  /** A tool falls back to the generalist role exactly when the table has no
      entry for it, and every role is one of six labels. */
  lemma AgentRoleSpec(toolName: string)
    ensures AgentRole(toolName) == GeneralistRole <==> toolName !in ToolAgentRoles
    ensures toolName in ToolAgentRoles ==> AgentRole(toolName) == ToolAgentRoles[toolName]
    ensures AgentRole(toolName) in {"knowledge-agent", "profile-agent", "communication-agent",
                                    "scheduler-agent", "commerce-agent", GeneralistRole}
  {
  }

  /** Every tool the route wires in has a specialised role. */
  lemma BaseToolsHaveRoles()
    ensures forall k :: 0 <= k < |BaseTools| ==>
      BaseTools[k] in ToolAgentRoles && AgentRole(BaseTools[k]) != GeneralistRole
  {
  }

  // ---------------------------------------------------------------------
  // Collaborators: the risk assessor and the tool back-ends are black boxes

  /** Identity and thread the audit logger is bound to. */
  datatype AuditContext = AuditContext(
    userId: string,
    userEmail: string,
    workspaceId: Option<string>,
    threadId: string)

  datatype RiskLevel = Low | Medium | High

  datatype RiskVerdict = RiskVerdict(level: RiskLevel, requiresStepUp: bool)

  /** `assessRisk(toolName, input, { userId })`: any total function. */
  type RiskAssessor = (string, Value, string) -> RiskVerdict

  /** A thrown value, seen through the properties the route inspects.
      `NullishFault` is `throw null` (isNull) or `throw undefined`; anything
      else is an object with a constructor name, an `__interrupt` property,
      a `message` property and its other properties. */
  datatype Fault =
    | NullishFault(isNull: bool)
    | ObjectFault(constructorName: string, interruptFlag: Value, message: Value,
                  props: map<string, Value>)

  /** How a tool back-end's `execute` settles. */
  datatype Completion = Returned(value: Value) | Threw(fault: Fault)

  type Executor = seq<Value> -> Completion

  /** A tool definition: all of its properties other than `execute`, and
      `execute` itself, which may be absent. */
  datatype ToolDefinition = ToolDefinition(fields: map<string, Value>, execute: Option<Executor>)

  /** A wrapped tool: the definition's other properties, kept as they were,
      and the data its replacement `execute` closes over. */
  datatype AuditedTool = AuditedTool(
    fields: map<string, Value>,
    toolName: string,
    agentRole: string,
    original: Option<Executor>)

  /** `createAuditedTools`: one wrapped tool per definition, under the same name. */
  function CreateAuditedTools(defs: map<string, ToolDefinition>): (tools: map<string, AuditedTool>)
    ensures tools.Keys == defs.Keys
    ensures forall n :: n in tools ==>
      && tools[n].fields == defs[n].fields
      && tools[n].original == defs[n].execute
      && tools[n].toolName == n
      && tools[n].agentRole == AgentRole(n)
  {
    map n | n in defs :: AuditedTool(defs[n].fields, n, AgentRole(n), defs[n].execute)
  }

  // ---------------------------------------------------------------------
  // Audit records and the event trace

  datatype AuditRecord =
    | ToolStart(ctx: AuditContext, toolName: string, input: Value, agentRole: string,
                riskLevel: RiskLevel, requiresStepUp: bool)
      /** `logAction(action, status, { toolName, agentRole, inputs, riskScore })` */
    | Action(ctx: AuditContext, action: string, status: string, toolName: string,
             agentRole: string, inputs: Value, riskScore: RiskLevel)
    | ToolSuccess(ctx: AuditContext, result: Value)
    | ToolError(ctx: AuditContext, message: Value, toolName: string)

  /** What happens, in order: an audit write, or a call into a tool back-end. */
  datatype Event = Logged(record: AuditRecord) | ToolRan(toolName: string, args: seq<Value>)

  /** What the wrapped `execute` gives its caller: a value, the step-up
      signal (a normal return value in the route), or a thrown fault. */
  datatype Outcome =
    | Resolved(value: Value)
    | SteppedUp(message: string, riskLevel: RiskLevel)
    | Rejected(fault: Fault)

  const StepUpMessage: string :=
    "This action was flagged as high risk and requires Auth0 Guardian verification. " +
    "Approve the request and ask me to continue once you are done."

  /** `args[0]` */
  function InputOf(args: seq<Value>): Value {
    if |args| > 0 then args[0] else Undefined
  }

  /** The catch block's test for an authorization interrupt. */
  predicate IsInterrupt(f: Fault) {
    f.ObjectFault? &&
    (f.constructorName == "TokenVaultInterrupt" || f.constructorName == "AccessDeniedInterrupt" ||
     Truthy(f.interruptFlag))
  }

  /** `(error as Error).message ?? 'Unknown error'` for a non-nullish error. */
  function ErrorMessage(f: Fault): Value
    requires f.ObjectFault?
  {
    Coalesce(f.message, Str("Unknown error"))
  }

  /** Reading `.message` of `null` or `undefined` raises this TypeError. */
  function MessageReadTypeError(isNull: bool): Fault {
    ObjectFault("TypeError", Undefined,
                Str("Cannot read properties of " + (if isNull then "null" else "undefined") +
                    " (reading 'message')"),
                map[])
  }

  predicate IsStart(e: Event) {
    e.Logged? && e.record.ToolStart?
  }

  /** A record that closes an invocation. */
  predicate IsTerminal(e: Event) {
    e.Logged? && (e.record.ToolSuccess? || e.record.ToolError? ||
                  (e.record.Action? && e.record.action == "step_up_required"))
  }

  function StartCount(s: seq<Event>): nat {
    if s == [] then 0 else StartCount(s[..|s| - 1]) + (if IsStart(s[|s| - 1]) then 1 else 0)
  }

  function TerminalCount(s: seq<Event>): nat {
    if s == [] then 0 else TerminalCount(s[..|s| - 1]) + (if IsTerminal(s[|s| - 1]) then 1 else 0)
  }

  /** The events of one invocation: begun by its start record, with no
      other start record and at most one terminal record. */
  predicate WellFormedInvocation(t: seq<Event>) {
    |t| >= 1 && IsStart(t[0]) && StartCount(t) == 1 && TerminalCount(t) <= 1
  }

  function Flatten(ts: seq<seq<Event>>): seq<Event> {
    if ts == [] then [] else Flatten(ts[..|ts| - 1]) + ts[|ts| - 1]
  }

  lemma {:induction false} CountsAppend(a: seq<Event>, b: seq<Event>)
    ensures StartCount(a + b) == StartCount(a) + StartCount(b)
    ensures TerminalCount(a + b) == TerminalCount(a) + TerminalCount(b)
    decreases |b|
  {
    if b == [] {
      assert a + b == a;
    } else {
      var b' := b[..|b| - 1];
      assert (a + b)[..|a + b| - 1] == a + b';
      CountsAppend(a, b');
    }
  }

  /** Over a trail made of whole invocations there is one start record per
      invocation and never more terminal records than start records. */
  lemma {:induction false} AuditTrailBalanced(ts: seq<seq<Event>>)
    requires forall k :: 0 <= k < |ts| ==> WellFormedInvocation(ts[k])
    ensures StartCount(Flatten(ts)) == |ts|
    ensures TerminalCount(Flatten(ts)) <= StartCount(Flatten(ts))
  {
    if ts != [] {
      var init := ts[..|ts| - 1];
      AuditTrailBalanced(init);
      CountsAppend(Flatten(init), ts[|ts| - 1]);
    }
  }

  // ---------------------------------------------------------------------
  // The wrapped `execute`

  /** The audit store and the tool back-ends, observed as one trace of events. */
  class MediationRuntime {
    var trace: seq<Event>
    /** The trace cut into invocations. */
    ghost var invocations: seq<seq<Event>>

    ghost predicate Valid()
      reads this
    {
      trace == Flatten(invocations) &&
      forall k :: 0 <= k < |invocations| ==> WellFormedInvocation(invocations[k])
    }

    constructor ()
      ensures Valid() && trace == [] && invocations == []
    {
      trace := [];
      invocations := [];
    }

    /** The replacement `execute` of `tool`, called with `args`: appends
        the invocation's events to the trace, one at a time, and returns its
        outcome, as `Mediate` describes them. */
    method Execute(tool: AuditedTool, ctx: AuditContext, assess: RiskAssessor, args: seq<Value>)
      returns (outcome: Outcome)
      requires Valid()
      modifies this
      ensures Valid()
      ensures trace == old(trace) + Mediate(tool, ctx, assess, args).events
      ensures invocations == old(invocations) + [Mediate(tool, ctx, assess, args).events]
      ensures outcome == Mediate(tool, ctx, assess, args).outcome
    {
      var input := InputOf(args);
      var risk := assess(tool.toolName, input, ctx.userId);

      // logger.logToolStart
      trace := trace + [Logged(ToolStart(ctx, tool.toolName, input, tool.agentRole, risk.level,
                                         risk.requiresStepUp))];

      if risk.requiresStepUp {
        // logger.logAction('step_up_required', 'pending', ...)
        trace := trace + [Logged(Action(ctx, "step_up_required", "pending", tool.toolName,
                                        tool.agentRole, input, risk.level))];
        outcome := SteppedUp(StepUpMessage, risk.level);
      } else {
        var completion := Returned(Undefined);
        if tool.original.Some? {
          trace := trace + [ToolRan(tool.toolName, args)];
          completion := tool.original.value(args);
        }
        match completion {
          case Returned(v) =>
            // logger.logToolSuccess
            trace := trace + [Logged(ToolSuccess(ctx, v))];
            outcome := Resolved(v);
          case Threw(f) =>
            if IsInterrupt(f) {
              outcome := Rejected(f);
            } else if f.NullishFault? {
              outcome := Rejected(MessageReadTypeError(f.isNull));
            } else {
              // logger.logToolError
              trace := trace + [Logged(ToolError(ctx, ErrorMessage(f), tool.toolName))];
              outcome := Rejected(f);
            }
        }
      }

      ghost var added := Mediate(tool, ctx, assess, args).events;
      MediateWellFormed(tool, ctx, assess, args);
      invocations := invocations + [added];
      assert invocations[..|invocations| - 1] == old(invocations);
    }
  }

  /** The events and outcome of one call of a wrapped tool. */
  datatype Invocation = Invocation(events: seq<Event>, outcome: Outcome)

  /** The mediation sequence: assess, log the start, then either log the
      step-up action and return the step-up signal, or run the back-end and
      log its result or error. */
  function Mediate(tool: AuditedTool, ctx: AuditContext, assess: RiskAssessor, args: seq<Value>)
    : Invocation
  {
    var input := InputOf(args);
    var risk := assess(tool.toolName, input, ctx.userId);
    var start := Logged(ToolStart(ctx, tool.toolName, input, tool.agentRole, risk.level, risk.requiresStepUp));
    if risk.requiresStepUp then
      Invocation([start, Logged(Action(ctx, "step_up_required", "pending", tool.toolName,
                                       tool.agentRole, input, risk.level))],
                 SteppedUp(StepUpMessage, risk.level))
    else match tool.original
      case None => Invocation([start, Logged(ToolSuccess(ctx, Undefined))], Resolved(Undefined))
      case Some(run) =>
        var ran := ToolRan(tool.toolName, args);
        match run(args)
        case Returned(v) => Invocation([start, ran, Logged(ToolSuccess(ctx, v))], Resolved(v))
        case Threw(f) =>
          if IsInterrupt(f) then Invocation([start, ran], Rejected(f))
          else if f.NullishFault? then Invocation([start, ran], Rejected(MessageReadTypeError(f.isNull)))
          else Invocation([start, ran, Logged(ToolError(ctx, ErrorMessage(f), tool.toolName))], Rejected(f))
  }

  /** The start record of a call: tool name, input, role and verdict. */
  function StartRecord(tool: AuditedTool, ctx: AuditContext, assess: RiskAssessor, args: seq<Value>)
    : AuditRecord
  {
    var risk := assess(tool.toolName, InputOf(args), ctx.userId);
    ToolStart(ctx, tool.toolName, InputOf(args), tool.agentRole, risk.level, risk.requiresStepUp)
  }

  /** Every call begins with its start record, before any other record and
      before the back-end runs, whatever the verdict. */
  lemma MediateStartsWithStart(tool: AuditedTool, ctx: AuditContext, assess: RiskAssessor, args: seq<Value>)
    ensures var events := Mediate(tool, ctx, assess, args).events;
      |events| >= 2 && events[0] == Logged(StartRecord(tool, ctx, assess, args)) &&
      forall i :: 1 <= i < |events| ==> !IsStart(events[i])
  {
  }

  /** A call is one well-formed invocation: one start record, at most one
      terminal record. */
  lemma MediateWellFormed(tool: AuditedTool, ctx: AuditContext, assess: RiskAssessor, args: seq<Value>)
    ensures WellFormedInvocation(Mediate(tool, ctx, assess, args).events)
  {
    InvocationShape(Mediate(tool, ctx, assess, args).events);
  }

  /** Step-up: the back-end is never run; the call logs exactly the start
      record and the pending step-up action, and returns the step-up signal. */
  lemma MediateStepUpBlocks(tool: AuditedTool, ctx: AuditContext, assess: RiskAssessor, args: seq<Value>)
    requires assess(tool.toolName, InputOf(args), ctx.userId).requiresStepUp
    ensures var risk := assess(tool.toolName, InputOf(args), ctx.userId);
      var inv := Mediate(tool, ctx, assess, args);
      && inv.events == [Logged(StartRecord(tool, ctx, assess, args)),
                        Logged(Action(ctx, "step_up_required", "pending", tool.toolName,
                                      tool.agentRole, InputOf(args), risk.level))]
      && (forall i :: 0 <= i < |inv.events| ==> !inv.events[i].ToolRan?)
      && inv.outcome == SteppedUp(StepUpMessage, risk.level)
  {
  }

  /** Without step-up, a definition without `execute` resolves to
      `undefined`, logged as the result. */
  lemma MediateWithoutBackend(tool: AuditedTool, ctx: AuditContext, assess: RiskAssessor, args: seq<Value>)
    requires !assess(tool.toolName, InputOf(args), ctx.userId).requiresStepUp
    requires tool.original.None?
    ensures Mediate(tool, ctx, assess, args) ==
      Invocation([Logged(StartRecord(tool, ctx, assess, args)), Logged(ToolSuccess(ctx, Undefined))],
                 Resolved(Undefined))
  {
  }

  /** Without step-up, the back-end runs once on the unmodified arguments,
      right after the start record; a returned value is logged and returned
      unchanged. */
  lemma MediateSuccess(tool: AuditedTool, ctx: AuditContext, assess: RiskAssessor, args: seq<Value>,
                       v: Value)
    requires !assess(tool.toolName, InputOf(args), ctx.userId).requiresStepUp
    requires tool.original.Some? && tool.original.value(args) == Returned(v)
    ensures Mediate(tool, ctx, assess, args) ==
      Invocation([Logged(StartRecord(tool, ctx, assess, args)), ToolRan(tool.toolName, args),
                  Logged(ToolSuccess(ctx, v))],
                 Resolved(v))
  {
  }

  /** An authorization interrupt is rethrown as the same fault, and no error
      record is written for it. */
  lemma MediateInterruptPassesThrough(tool: AuditedTool, ctx: AuditContext, assess: RiskAssessor,
                                      args: seq<Value>, f: Fault)
    requires !assess(tool.toolName, InputOf(args), ctx.userId).requiresStepUp
    requires tool.original.Some? && tool.original.value(args) == Threw(f)
    requires IsInterrupt(f)
    ensures Mediate(tool, ctx, assess, args) ==
      Invocation([Logged(StartRecord(tool, ctx, assess, args)), ToolRan(tool.toolName, args)],
                 Rejected(f))
  {
  }

  /** Any other thrown object is logged once, with its message or
      'Unknown error' and the tool name, and rethrown unchanged. */
  lemma MediateGenuineError(tool: AuditedTool, ctx: AuditContext, assess: RiskAssessor,
                            args: seq<Value>, f: Fault)
    requires !assess(tool.toolName, InputOf(args), ctx.userId).requiresStepUp
    requires tool.original.Some? && tool.original.value(args) == Threw(f)
    requires f.ObjectFault? && !IsInterrupt(f)
    ensures Mediate(tool, ctx, assess, args) ==
      Invocation([Logged(StartRecord(tool, ctx, assess, args)), ToolRan(tool.toolName, args),
                  Logged(ToolError(ctx, Coalesce(f.message, Str("Unknown error")), tool.toolName))],
                 Rejected(f))
  {
  }

  /** A thrown `null` or `undefined` makes the catch block itself fail on
      `.message`: no error record, and a TypeError propagates instead. */
  lemma MediateNullishThrow(tool: AuditedTool, ctx: AuditContext, assess: RiskAssessor,
                            args: seq<Value>, isNull: bool)
    requires !assess(tool.toolName, InputOf(args), ctx.userId).requiresStepUp
    requires tool.original.Some? && tool.original.value(args) == Threw(NullishFault(isNull))
    ensures Mediate(tool, ctx, assess, args) ==
      Invocation([Logged(StartRecord(tool, ctx, assess, args)), ToolRan(tool.toolName, args)],
                 Rejected(MessageReadTypeError(isNull)))
  {
  }

  /** A start record followed by at most two events that are not start
      records, of which only the last may be terminal, is one invocation. */
  lemma InvocationShape(t: seq<Event>)
    requires 1 <= |t| <= 3 && IsStart(t[0])
    requires forall i :: 1 <= i < |t| ==> !IsStart(t[i])
    requires forall i :: 1 <= i < |t| - 1 ==> !IsTerminal(t[i])
    ensures WellFormedInvocation(t)
  {
    var one := t[..1];
    assert one[..0] == [] && one[0] == t[0];
    assert StartCount(one) == 1 && TerminalCount(one) == 0;
    if |t| >= 2 {
      var two := t[..2];
      assert two[..1] == one && two[1] == t[1];
      assert StartCount(two) == 1 && TerminalCount(two) <= 1;
      if |t| == 3 {
        assert t[..2] == two;
        assert TerminalCount(two) == 0;
      } else {
        assert t == two;
      }
    } else {
      assert t == one;
    }
  }

  // ---------------------------------------------------------------------
  // Turn-level error hooks

  /** The error `onFinish` throws when a tool-call step ended in a tool error. */
  datatype SerializableError = SerializableError(cause: Value, toolCallId: Value, toolName: Value,
                                                 toolArgs: Value)

  /** `onFinish`: a `tool-calls` finish whose last content item is a
      `tool-error` is rethrown with that item's error, call id, name and input. */
  function FinishToolError(finishReason: string, content: seq<Value>): (r: Option<SerializableError>)
    ensures r.Some? <==>
      finishReason == "tool-calls" && |content| > 0 && Get(content[|content| - 1], "type") == Str("tool-error")
    ensures r.Some? ==>
      var last := content[|content| - 1];
      r.value == SerializableError(Get(last, "error"), Get(last, "toolCallId"), Get(last, "toolName"),
                                   Get(last, "input"))
  {
    if finishReason == "tool-calls" && |content| > 0 then
      var last := content[|content| - 1];
      if Get(last, "type") == Str("tool-error") then
        Some(SerializableError(Get(last, "error"), Get(last, "toolCallId"), Get(last, "toolName"),
                               Get(last, "input")))
      else None
    else None
  }

  /** Only the last content item decides: a tool error followed by anything
      else is not rethrown. */
  lemma EarlierToolErrorIgnored(content: seq<Value>, last: Value)
    requires Get(last, "type") != Str("tool-error")
    ensures FinishToolError("tool-calls", content + [last]) == None
  {
  }

  /** The interrupt classes the error hook recognises by constructor name. */
  predicate IsAuthorizationInterruptClass(err: Fault) {
    err.ObjectFault? &&
    (err.constructorName == "TokenVaultInterrupt" || err.constructorName == "AccessDeniedInterrupt")
  }

  const ErrorPrefix: string := "An error occurred: "
  const UnknownErrorText: string := "An unknown error occurred"

  /** `onError`: the text shown for an error that ends the turn. */
  function TurnErrorText(err: Fault): (text: string)
    ensures text == "" <==> IsAuthorizationInterruptClass(err)
    ensures !IsAuthorizationInterruptClass(err) ==>
      StartsWith(text, ErrorPrefix) &&
      text[|ErrorPrefix|..] ==
        (if err.ObjectFault? && Truthy(err.message) then ToJsString(err.message) else UnknownErrorText)
  {
    if IsAuthorizationInterruptClass(err) then ""
    else
      var detail := if err.ObjectFault? && Truthy(err.message) then ToJsString(err.message)
                    else UnknownErrorText;
      ErrorPrefix + detail
  }

  /** A fault flagged only by `__interrupt` passes through a tool's wrapper
      unlogged, yet the `onError` callback, given that fault, returns an
      ordinary error text. */
  lemma FlagOnlyInterruptShownAsError(err: Fault)
    requires err.ObjectFault? && Truthy(err.interruptFlag)
    requires !IsAuthorizationInterruptClass(err)
    ensures IsInterrupt(err)
    ensures TurnErrorText(err) != ""
  {
  }

  /** An error with a non-empty string message is shown with that message. */
  lemma TurnErrorTextShowsMessage(err: Fault, msg: string)
    requires err.ObjectFault? && err.message == Str(msg) && msg != ""
    requires !IsAuthorizationInterruptClass(err)
    ensures TurnErrorText(err) == ErrorPrefix + msg
  {
  }
}
