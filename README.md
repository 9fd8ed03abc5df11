# Assistant Zero: tool mediation, conversation list, message parts, environment checks

This project models four pieces of the Assistant Zero chat assistant (a Next.js app in
which an LLM agent calls Gmail, Calendar, search and shopping tools on the user's behalf)
and proves properties of each:

- **Risk-aware tool mediation** (`chat_route.dfy`, module `ChatRoute`).
  - Every tool handed to the model is wrapped by `createAuditedTools`.
  - Each wrapped call is risk-assessed, and a start record is always audited.
  - If the call needs step-up verification, it is blocked and the tool never runs.
  - Otherwise the tool runs and its result or error is audited.
  - Authorization interrupts pass through unlogged.
  - The audit store and the tool back-ends form one append-only event trace. It is the field `trace` of the class `MediationRuntime`, and its method `Execute` extends it step by step.
  - Also covered: the tool-name to agent-role table, the `onFinish` rethrow of a final tool error, and the `onError` text shown for an error that ends the turn.
- **Conversation list** (`conversations.dfy`, module `Conversations`).
  - The `GET /api/chat/conversations` handler: a 401 guard, then a loop that groups the user's newest-first messages into one summary per thread. Each summary holds the default thread id, a preview, a title, the timestamp of the first message seen and a message count.
  - The summaries are then sorted newest first and capped at 20.
  - The loop is a method proved against a reference definition (`Grouped`).
- **Message parts** (`message_parts.dfy`, module `MessageParts`).
  - The chat bubble's `uiMessageToText`.
  - `getToolCallsFromMessage`, a loop that turns `tool-*` parts into tool-call entries with a pending/complete/error status.
- **Environment validation** (`env_validation.dfy`, module `EnvValidation`).
  - `validateEnv`, a loop that collects the unset required variables. It either throws the full report or returns a result.
  - `getUserFriendlyEnvError` and `requireEnv`.

`js.dfy` (module `Js`) models the JavaScript values these functions handle as untyped data. It covers:
- truthiness;
- the operators `?.`, `??` and `||`;
- `String(v)`;
- `substring`, `startsWith`, `indexOf`, and `replace` with a string pattern (first occurrence only).

Collaborators outside the modelled files are parameters:
- the risk assessor is any total function `(toolName, input, userId) -> (level, requiresStepUp)`;
- each tool back-end is any function from arguments to a returned value or a thrown fault;
- locale date formatting is a function `int -> string`;
- the environment is a `map<string, string>`.

Where this model follows the code rather than a prose description of it:
- **Empty preview.** A message whose `parts` array has no part with text or content gets the preview `''`, not `'New conversation'`. The code's `(firstText?.text || firstText?.content || '')` yields `''`.
- **Empty error message.** `onError` uses `||`, so an error with an empty message is shown as `An error occurred: An unknown error occurred`.
- **`__interrupt` flag.** `onError` tests only the two constructor names, not `__interrupt`. `FlagOnlyInterruptShownAsError` shows that a fault flagged only by `__interrupt` is treated as an interrupt by the tool wrapper (rethrown, not logged), while the `onError` callback, when given such a fault, returns an ordinary error text. Whether such a fault reaches `onError` depends on `withInterruptions` and `errorSerializer`, which are not part of this model.
- **Null or undefined throws.** A tool that throws `null` or `undefined` makes the wrapper's catch block itself throw a `TypeError` when it reads `.message`. No error record is written for it (`MediateNullishThrow`).

## Model

| member | source | states |
|---|---|---|
| ChatRoute.AgentRoleSpec | src/app/api/chat/route.ts:59-74 | a tool's role is its table entry when it has one, and `generalist-agent` exactly when it has none; every role is one of six labels |
| ChatRoute.BaseToolsHaveRoles | src/app/api/chat/route.ts:164-174 | each of the eight tools the route wires in has a table entry, so none runs as the generalist |
| ChatRoute.CreateAuditedTools | src/app/api/chat/route.ts:71-80 | the wrapped record has exactly the definitions' keys; each entry keeps every non-`execute` field and the original `execute`, and closes over its own name and role |
| ChatRoute.MediationRuntime.Execute | src/app/api/chat/route.ts:81-121 | one call appends exactly the events of `Mediate` to the trace, returns its outcome, and keeps the trace a concatenation of well-formed invocations |
| ChatRoute.MediateStartsWithStart | src/app/api/chat/route.ts:82-86 | whatever the verdict, a call's first event is the start record (tool name, input, role, risk level, step-up flag) and no later event is a start record |
| ChatRoute.MediateWellFormed | src/app/api/chat/route.ts:83-120 | each call writes one start record and at most one closing record (success, error or pending step-up) |
| ChatRoute.AuditTrailBalanced | src/app/api/chat/route.ts:83-120 | over a trail of whole calls there is exactly one start record per call and never more closing records than start records |
| ChatRoute.MediateStepUpBlocks | src/app/api/chat/route.ts:88-102 | when the verdict requires step-up, the back-end never runs, the call logs exactly the start record and the pending `step_up_required` action, and it returns the step-up message with the risk level |
| ChatRoute.MediateWithoutBackend | src/app/api/chat/route.ts:104-107 | without step-up, a definition without `execute` resolves to `undefined`, which is logged as the result |
| ChatRoute.MediateSuccess | src/app/api/chat/route.ts:104-107 | without step-up, the back-end runs once on the unmodified arguments right after the start record, and its result is logged and returned unchanged |
| ChatRoute.MediateInterruptPassesThrough | src/app/api/chat/route.ts:108-115 | a `TokenVaultInterrupt`, an `AccessDeniedInterrupt` or a fault with a truthy `__interrupt` is rethrown as the same fault, with no error record |
| ChatRoute.MediateGenuineError | src/app/api/chat/route.ts:117-120 | any other thrown object is logged once, with its message (or `Unknown error` when that is nullish) and the tool name, then rethrown unchanged |
| ChatRoute.MediateNullishThrow | src/app/api/chat/route.ts:111-118 | a thrown `null` or `undefined` writes no error record; a TypeError about reading `message` propagates instead |
| ChatRoute.FinishToolError | src/app/api/chat/route.ts:214-226 | `onFinish` throws exactly when the finish reason is `tool-calls` and the last content item is a `tool-error`; the thrown value carries that item's error, call id, tool name and input |
| ChatRoute.EarlierToolErrorIgnored | src/app/api/chat/route.ts:214-216 | only the last content item decides: a tool error followed by any other item is not rethrown |
| ChatRoute.TurnErrorText | src/app/api/chat/route.ts:249-255 | the text is empty exactly for the two interrupt classes; otherwise it is `An error occurred: ` followed by the stringified message when truthy, or `An unknown error occurred` |
| ChatRoute.FlagOnlyInterruptShownAsError | src/app/api/chat/route.ts:249-255 | a fault flagged only by `__interrupt` counts as an interrupt in the tool wrapper, yet the `onError` callback, given that fault, returns a non-empty error text |
| ChatRoute.TurnErrorTextShowsMessage | src/app/api/chat/route.ts:254-255 | an ordinary error with a non-empty string message is shown as the prefix followed by exactly that message |
| Conversations.ThreadOf | src/app/api/chat/conversations/route.ts:32 | the thread key is never empty: the message's non-empty thread id, else `assistant0-chat` |
| Conversations.TitleOf | src/app/api/chat/conversations/route.ts:51 | a non-empty stored title is kept; otherwise the title is `Chat ` followed by the locale date of the message's timestamp |
| Conversations.FindTextPartIsFirst | src/app/api/chat/conversations/route.ts:42 | `find` returns nothing exactly when no part has text or content; otherwise it returns a part with no earlier such part |
| Conversations.FindTextPartAt | src/app/api/chat/conversations/route.ts:42 | `find` returns the first part that has text or content |
| Conversations.PreviewOf | src/app/api/chat/conversations/route.ts:36-47 | the preview is at most 100 characters; string content gives its own first 100 characters; content without a parts array gives `New conversation`; a parts array without any text gives `''` |
| Conversations.PreviewOfFirstTextPart | src/app/api/chat/conversations/route.ts:41-43 | with a parts array, the preview is the first 100 characters of the first text-carrying part's `text`, or of its `content` when `text` is falsy |
| Conversations.Grouped | src/app/api/chat/conversations/route.ts:29-59 | one summary per thread, in order of first appearance, each built from the thread's first message and its message count |
| Conversations.GroupByThread | src/app/api/chat/conversations/route.ts:29-61 | the loop over messages (insert with count 1 on a new thread, increment otherwise) and the map's insertion-order values give exactly `Grouped` |
| Conversations.SummaryTableStep | src/app/api/chat/conversations/route.ts:31-58 | one loop pass turns the table for the messages seen so far into the table for one more message |
| Conversations.ThreadsMembership | src/app/api/chat/conversations/route.ts:31-34 | a thread gets a summary exactly when some message belongs to it |
| Conversations.ThreadsDistinct | src/app/api/chat/conversations/route.ts:34 | a thread is entered into the map once |
| Conversations.GroupedDistinct | src/app/api/chat/conversations/route.ts:29-34 | the grouped summaries have pairwise distinct thread ids |
| Conversations.CountPositive | src/app/api/chat/conversations/route.ts:49-57 | a thread has a positive count exactly when it has a summary |
| Conversations.FirstIndexIsFirst | src/app/api/chat/conversations/route.ts:34-55 | a summary is taken from its thread's first message: every earlier message belongs to another thread |
| Conversations.GroupedCountsPerThread | src/app/api/chat/conversations/route.ts:49-58 | each summary's message count is the number of messages of its thread, and is positive |
| Conversations.CountsCoverAllMessages | src/app/api/chat/conversations/route.ts:49-58 | summed over all threads, the per-thread counts equal the number of messages |
| Conversations.GroupedCountsSumToTotal | src/app/api/chat/conversations/route.ts:49-58 | before the cap, the summaries' message counts sum to the number of messages |
| Conversations.SummaryFromNewest | src/app/api/chat/conversations/route.ts:22-55 | with the query's newest-first order, a summary's time is that of its thread's newest message |
| Conversations.ThreadsInFirstIndexOrder | src/app/api/chat/conversations/route.ts:29-61 | the map's insertion order is the order of the threads' first messages |
| Conversations.GroupedNewestFirst | src/app/api/chat/conversations/route.ts:22-61 | with newest-first input, the summaries already come out newest first |
| Conversations.Insert | src/app/api/chat/conversations/route.ts:62 | inserting a summary adds exactly that summary to the multiset |
| Conversations.SortNewestFirst | src/app/api/chat/conversations/route.ts:62 | the sort is a permutation of the summaries |
| Conversations.InsertKeepsOrder | src/app/api/chat/conversations/route.ts:62 | inserting into a newest-first sequence keeps it newest first |
| Conversations.SortIsOrderedPermutation | src/app/api/chat/conversations/route.ts:61-62 | the sorted summaries are newest first, have the same length and are a permutation of the input |
| Conversations.SortKeepsNewestFirst | src/app/api/chat/conversations/route.ts:62 | the stable sort leaves a newest-first sequence unchanged |
| Conversations.SortRedundantForStoredOrder | src/app/api/chat/conversations/route.ts:22-63 | with the query's newest-first order, the sort changes nothing: the result is the grouped summaries themselves |
| Conversations.PermutationKeepsDistinct | src/app/api/chat/conversations/route.ts:61-62 | reordering summaries keeps their thread ids distinct |
| Js.Take | src/app/api/chat/conversations/route.ts:63 | `slice(0, n)` (and `substring(0, n)` for the preview) keeps the first `min(n, length)` elements |
| Conversations.ListConversations | src/app/api/chat/conversations/route.ts:14-63 | 401 exactly without a non-empty user id; otherwise the first 20 of the sorted grouped summaries, so at most 20, newest first, with distinct thread ids |
| MessageParts.UiMessageToText | src/components/chat-message-bubble.tsx:6-18 | with a parts array the text is the per-part texts concatenated in order; without one it is `content` unchanged when not nullish, and `''` when it is |
| MessageParts.PartTextRule | src/components/chat-message-bubble.tsx:9-14 | a string part is itself; otherwise its string `text`, else its string `content`, else `''` |
| MessageParts.JoinPartTextsIsConcat | src/components/chat-message-bubble.tsx:8-15 | the joined text equals the concatenation, first to last, of `parts.map(...)` |
| MessageParts.JoinPartTextsAppend | src/components/chat-message-bubble.tsx:8-15 | the text of parts one after another is their texts one after another (in-order concatenation) |
| MessageParts.OnlyTextPartsContribute | src/components/chat-message-bubble.tsx:9-15 | parts without a string value, `text` or `content` contribute nothing: the text is that of the remaining parts, in order |
| MessageParts.StringPartsConcatenate | src/components/chat-message-bubble.tsx:10-15 | any sequence of string parts reads as the concatenation of those strings, in order |
| MessageParts.GetToolCallsFromMessage | src/components/chat-message-bubble.tsx:20-62 | `[]` without a parts array; otherwise the loop's entries are exactly `ToolCallsOf` of the parts |
| MessageParts.ToolCallsFollowParts | src/components/chat-message-bubble.tsx:38-58 | there is one entry per tool part (type starting `tool-` with a truthy call id), in the parts' order, built from that part; so there are never more entries than parts |
| MessageParts.ToolCallsOfAppend | src/components/chat-message-bubble.tsx:38-58 | the entries of parts one after another are their entries one after another |
| MessageParts.ToolNameStripsPrefix | src/components/chat-message-bubble.tsx:40-41 | the tool name is the type without its leading `tool-`, and putting `tool-` back gives the type |
| MessageParts.StatusPrecedence | src/components/chat-message-bubble.tsx:44-49 | complete exactly when the state is `output-available` or the output is defined; error exactly when not complete and the state is `error` or `isError` is truthy; pending otherwise |
| MessageParts.ToolCallPayload | src/components/chat-message-bubble.tsx:51-57 | args are the input if truthy, else args if truthy, else `{}`; result is the output if truthy, else the result |
| EnvValidation.MissingEntriesSpec | src/lib/env-validation.ts:39-43 | an entry `KEY - description` is collected for every unset variable, and every collected entry belongs to an unset variable |
| EnvValidation.MissingNamesSpec | src/lib/env-validation.ts:39-43 | a key is reported missing exactly when a required variable of that name is unset or empty |
| EnvValidation.NothingMissingIffAllSet | src/lib/env-validation.ts:39-45 | nothing is collected exactly when every required variable is set |
| EnvValidation.MissingEntriesDependOnlyOnVars | src/lib/env-validation.ts:39-43 | the collected list depends only on the checked variables' settings |
| EnvValidation.OptionalVarsNeverReported | src/lib/env-validation.ts:22-43 | setting, changing or removing an optional variable never changes what is reported |
| Js.IndexOf | src/lib/env-validation.ts:71 | a found position holds the pattern; when nothing is found, no suffix of the string starts with the pattern (used for `split` here and for `replace` in the chat bubble) |
| EnvValidation.BeforeSeparator | src/lib/env-validation.ts:71 | the first field of a split is a prefix of the string |
| EnvValidation.EntryNameRoundTrip | src/lib/env-validation.ts:69-73 | splitting `KEY - description` on ` - ` gives back the key, for keys without spaces |
| EnvValidation.RequiredNamesHaveNoSpaces | src/lib/env-validation.ts:12-20 | no required key contains a space, so the round trip applies to all of them |
| EnvValidation.FirstFields | src/lib/env-validation.ts:71 | the returned `missing` has one name per collected entry |
| EnvValidation.FirstFieldsAreNames | src/lib/env-validation.ts:69-73 | the returned `missing` names are exactly the unset keys, in declaration order |
| EnvValidation.JoinLinesContainsLine | src/lib/env-validation.ts:53 | every line joined with `\n` appears in the joined text |
| EnvValidation.MessageListsEveryEntry | src/lib/env-validation.ts:46-63 | the report contains every entry, on its own line numbered from 1 |
| EnvValidation.MessageNamesEveryUnsetVariable | src/lib/env-validation.ts:41-63 | the report names every unset required variable with its description |
| EnvValidation.ValidateEnv | src/lib/env-validation.ts:36-77 | throws exactly when `throwOnError` (default true) and some required variable is unset, with the full report; otherwise valid exactly when all are set, with `missing == []` and no message, else the unset names and the report |
| EnvValidation.GetUserFriendlyEnvError | src/lib/env-validation.ts:82-89 | `''` exactly when every required variable is set, otherwise the fixed configuration sentence |
| EnvValidation.RequireEnv | src/lib/env-validation.ts:94-104 | returns the value exactly when it is set and non-empty; otherwise throws, naming the variable, adding ` - description` only for a non-empty description, followed by the setup hint |
| EnvValidation.ValidateAgreesWithRequire | src/lib/env-validation.ts:94-104 | validation finds nothing missing exactly when `requireEnv` succeeds for every required variable |

## Left out

- Risk assessment and audit logging internals are not part of this model. The assessor is an arbitrary total function. Each logger call is one appended event, and audit writes never fail.
- The model runtime and streaming are left out: `streamText`, `stepCountIs(10)`, `withInterruptions`, `createUIMessageStream`, `errorSerializer` and `setAIContext`. Only the `onFinish` rethrow and the `onError` text are modelled. The resume protocol for interrupts is left out.
- Persistence and session I/O are parameters: the user id, the queried messages and the environment. This covers the message inserts in `POST`, the session lookup and the database query. The query's filter and newest-first order become preconditions of the lemmas that rely on them.
- ListConversations: the catch-all 500 response is not modelled; nothing modelled throws.
- MediationRuntime.Execute: each call runs to completion before the next starts. Interleaving of concurrent awaited tool calls on the shared trace is not modelled.
- MediationRuntime.Execute: tool back-ends are pure functions of their arguments. Their own side effects (mail, calendar, purchases) are not modelled.
- GetToolCallsFromMessage: its precondition excludes a part whose `type` is truthy but not a string, on which `startsWith` would throw. The message type declares `type` a string.
- TurnErrorText: the stringified message follows `String()` for primitives, arrays and plain objects. Messages with a custom `toString`, and symbols, are not modelled.
- `Js.Value`: JavaScript numbers are integers, and NaN and fractional timestamps are not modelled. Strings are sequences of code points, whereas `substring(0, 100)` counts UTF-16 code units, so previews can differ for text outside the Basic Multilingual Plane.
- AgentRole: `TOOL_AGENT_ROLES[toolName]` would also find inherited `Object.prototype` members such as `constructor`. The model's table holds only the eight own entries.
- TitleOf: `toLocaleDateString` is a parameter, so titles are opaque strings. Summaries are ordered by integer timestamps.
