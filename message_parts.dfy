/** How a chat bubble reads a UI message: its text, and the tool calls it
    shows with their status. */
module MessageParts {
  import opened Js

  // ---------------------------------------------------------------------
  // Message text

  /** The text one part contributes: the part itself if it is a string,
      else its string `text`, else its string `content`, else ''. */
  function PartText(p: Value): string {
    if p.Str? then p.s
    else if Get(p, "text").Str? then Get(p, "text").s
    else if Get(p, "content").Str? then Get(p, "content").s
    else ""
  }

  /** The per-part rule: a string part is itself; otherwise a string
      `text` wins over a string `content`; anything else gives ''. */
  lemma PartTextRule(p: Value)
    ensures p.Str? ==> PartText(p) == p.s
    ensures !p.Str? && Get(p, "text").Str? ==> PartText(p) == Get(p, "text").s
    ensures !p.Str? && !Get(p, "text").Str? && Get(p, "content").Str? ==> PartText(p) == Get(p, "content").s
    ensures !p.Str? && !Get(p, "text").Str? && !Get(p, "content").Str? ==> PartText(p) == ""
    ensures PartText(p) != "" ==> p.Str? || Get(p, "text").Str? || Get(p, "content").Str?
  {
  }

  /** `parts.map(PartText).join('')` */
  function JoinPartTexts(parts: seq<Value>): string {
    if parts == [] then "" else JoinPartTexts(parts[..|parts| - 1]) + PartText(parts[|parts| - 1])
  }

  /** `uiMessageToText`: the joined part texts when `parts` is an array,
      otherwise `content ?? ''`. */
  function UiMessageToText(message: Value): (text: Value)
    ensures Get(message, "parts").Arr? ==>
      text == Str(Concat(PartTexts(Get(message, "parts").items)))
    ensures !Get(message, "parts").Arr? && !Nullish(Get(message, "content")) ==> text == Get(message, "content")
    ensures !Get(message, "parts").Arr? && Nullish(Get(message, "content")) ==> text == Str("")
  {
    var parts := Get(message, "parts");
    if parts.Arr? then
      JoinPartTextsIsConcat(parts.items);
      Str(JoinPartTexts(parts.items))
    else Coalesce(Get(message, "content"), Str(""))
  }

  /** `parts.map(PartText)` */
  function PartTexts(parts: seq<Value>): (texts: seq<string>)
    ensures |texts| == |parts|
  {
    seq(|parts|, i requires 0 <= i < |parts| => PartText(parts[i]))
  }

  /** `texts.join('')`, one text after another from the first. */
  function Concat(texts: seq<string>): string {
    if texts == [] then "" else texts[0] + Concat(texts[1..])
  }

  /** The joined text is the part texts concatenated in order. */
  lemma {:induction false} JoinPartTextsIsConcat(parts: seq<Value>)
    ensures JoinPartTexts(parts) == Concat(PartTexts(parts))
  {
    if parts != [] {
      var rest := parts[1..];
      JoinPartTextsIsConcat(rest);
      assert parts == [parts[0]] + rest;
      JoinPartTextsAppend([parts[0]], rest);
      assert JoinPartTexts([parts[0]]) == PartText(parts[0]) by {
        assert [parts[0]][..0] == [];
      }
      assert PartTexts(parts)[1..] == PartTexts(rest);
    }
  }

  /** The text of parts one after another is the texts one after another. */
  lemma {:induction false} JoinPartTextsAppend(a: seq<Value>, b: seq<Value>)
    ensures JoinPartTexts(a + b) == JoinPartTexts(a) + JoinPartTexts(b)
    decreases |b|
  {
    if b == [] {
      assert a + b == a;
    } else {
      var b' := b[..|b| - 1];
      assert (a + b)[..|a + b| - 1] == a + b';
      JoinPartTextsAppend(a, b');
    }
  }

  /** The parts that carry text, in order. */
  function TextParts(parts: seq<Value>): seq<Value> {
    if parts == [] then []
    else TextParts(parts[..|parts| - 1]) +
         (if PartText(parts[|parts| - 1]) != "" then [parts[|parts| - 1]] else [])
  }

  /** Parts without a string, text or content contribute nothing: the text
      is that of the text-carrying parts alone, in their order. */
  lemma {:induction false} OnlyTextPartsContribute(parts: seq<Value>)
    ensures JoinPartTexts(TextParts(parts)) == JoinPartTexts(parts)
  {
    if parts != [] {
      var init := parts[..|parts| - 1];
      var last := parts[|parts| - 1];
      OnlyTextPartsContribute(init);
      if PartText(last) != "" {
        JoinPartTextsAppend(TextParts(init), [last]);
        assert JoinPartTexts([last]) == PartText(last) by {
          assert [last][..0] == [];
        }
      } else {
        assert TextParts(init) + [] == TextParts(init);
        assert TextParts(parts) == TextParts(init);
        assert JoinPartTexts(parts) == JoinPartTexts(init) + "" == JoinPartTexts(init);
      }
    }
  }

  /** A message made of string parts reads as their concatenation. */
  lemma StringPartsConcatenate(texts: seq<string>)
    ensures JoinPartTexts(seq(|texts|, i requires 0 <= i < |texts| => Str(texts[i]))) == Concat(texts)
  {
    var parts := seq(|texts|, i requires 0 <= i < |texts| => Str(texts[i]));
    JoinPartTextsIsConcat(parts);
    assert PartTexts(parts) == texts;
  }

  // ---------------------------------------------------------------------
  // Tool calls

  datatype ToolStatus = Pending | Complete | Error

  datatype ToolCall = ToolCall(toolCallId: Value, toolName: string, args: Value, result: Value,
                               status: ToolStatus)

  const ToolPrefix: string := "tool-"

  /** The declared message type gives every part a string `type`; a truthy
      non-string one would make `startsWith` throw. */
  predicate PartTypesAreStrings(parts: seq<Value>) {
    forall k :: 0 <= k < |parts| ==> !Truthy(Get(parts[k], "type")) || Get(parts[k], "type").Str?
  }

  /** `part?.type && part.type.startsWith('tool-') && part.toolCallId` */
  predicate IsToolPart(p: Value) {
    Get(p, "type").Str? && StartsWith(Get(p, "type").s, ToolPrefix) && Truthy(Get(p, "toolCallId"))
  }

  /** `'complete'` if the output is available or present, else `'error'` if
      the state or the flag says so, else `'pending'`. */
  function StatusOf(p: Value): ToolStatus {
    if Get(p, "state") == Str("output-available") || Get(p, "output") != Undefined then Complete
    else if Get(p, "state") == Str("error") || Truthy(Get(p, "isError")) then Error
    else Pending
  }

  /** The entry pushed for a tool part. */
  function ToolCallOf(p: Value): ToolCall
    requires IsToolPart(p)
  {
    ToolCall(Get(p, "toolCallId"),
             ReplaceFirst(Get(p, "type").s, ToolPrefix, ""),
             Or(Or(Get(p, "input"), Get(p, "args")), Obj(map[])),
             Or(Get(p, "output"), Get(p, "result")),
             StatusOf(p))
  }

  /** The entries for the tool parts, in the parts' order. */
  function ToolCallsOf(parts: seq<Value>): seq<ToolCall> {
    if parts == [] then []
    else
      var last := parts[|parts| - 1];
      ToolCallsOf(parts[..|parts| - 1]) + (if IsToolPart(last) then [ToolCallOf(last)] else [])
  }

  /** `getToolCallsFromMessage`: the `forEach` over the parts. */
  method GetToolCallsFromMessage(message: Value) returns (toolCalls: seq<ToolCall>)
    requires Get(message, "parts").Arr? ==> PartTypesAreStrings(Get(message, "parts").items)
    ensures !Get(message, "parts").Arr? ==> toolCalls == []
    ensures Get(message, "parts").Arr? ==> toolCalls == ToolCallsOf(Get(message, "parts").items)
  {
    var partsValue := Get(message, "parts");
    if !partsValue.Arr? {
      return [];
    }
    var parts := partsValue.items;
    toolCalls := [];
    var i := 0;
    while i < |parts|
      invariant 0 <= i <= |parts|
      invariant toolCalls == ToolCallsOf(parts[..i])
    {
      var part := parts[i];
      assert parts[..i + 1][..i] == parts[..i];
      var partType := Get(part, "type");
      if Truthy(partType) && StartsWith(partType.s, ToolPrefix) && Truthy(Get(part, "toolCallId")) {
        var toolName := ReplaceFirst(partType.s, ToolPrefix, "");
        var status := Pending;
        if Get(part, "state") == Str("output-available") || Get(part, "output") != Undefined {
          status := Complete;
        } else if Get(part, "state") == Str("error") || Truthy(Get(part, "isError")) {
          status := Error;
        }
        toolCalls := toolCalls + [ToolCall(Get(part, "toolCallId"), toolName,
                                           Or(Or(Get(part, "input"), Get(part, "args")), Obj(map[])),
                                           Or(Get(part, "output"), Get(part, "result")),
                                           status)];
      }
      i := i + 1;
    }
    assert parts[..i] == parts;
  }

  /** Positions of the tool parts, in increasing order. */
  function ToolPartIndices(parts: seq<Value>): seq<nat> {
    if parts == [] then []
    else
      ToolPartIndices(parts[..|parts| - 1]) +
      (if IsToolPart(parts[|parts| - 1]) then [|parts| - 1] else [])
  }

  /** The entries are exactly the tool parts' entries, one per tool part,
      in the order of the parts; so there are never more entries than parts. */
  lemma {:induction false} ToolCallsFollowParts(parts: seq<Value>)
    ensures var idx := ToolPartIndices(parts);
      && |ToolCallsOf(parts)| == |idx| <= |parts|
      && (forall k :: 0 <= k < |idx| ==> idx[k] < |parts| && IsToolPart(parts[idx[k]]) &&
                                         ToolCallsOf(parts)[k] == ToolCallOf(parts[idx[k]]))
      && (forall k, l :: 0 <= k < l < |idx| ==> idx[k] < idx[l])
      && (forall j :: 0 <= j < |parts| && IsToolPart(parts[j]) ==> j in idx)
  {
    if parts != [] {
      var init := parts[..|parts| - 1];
      ToolCallsFollowParts(init);
      var idx := ToolPartIndices(parts);
      assert forall k :: 0 <= k < |ToolPartIndices(init)| ==> ToolPartIndices(init)[k] < |init|;
      forall k | 0 <= k < |idx| ensures idx[k] < |parts| && IsToolPart(parts[idx[k]]) &&
                                        ToolCallsOf(parts)[k] == ToolCallOf(parts[idx[k]]) {
        if k < |ToolPartIndices(init)| {
          assert parts[idx[k]] == init[idx[k]];
        }
      }
      forall j | 0 <= j < |parts| && IsToolPart(parts[j]) ensures j in idx {
        if j < |init| { assert init[j] == parts[j]; }
      }
    }
  }

  /** Entries of parts one after another are the entries one after another. */
  lemma {:induction false} ToolCallsOfAppend(a: seq<Value>, b: seq<Value>)
    ensures ToolCallsOf(a + b) == ToolCallsOf(a) + ToolCallsOf(b)
    decreases |b|
  {
    if b == [] {
      assert a + b == a;
    } else {
      var b' := b[..|b| - 1];
      assert (a + b)[..|a + b| - 1] == a + b';
      ToolCallsOfAppend(a, b');
    }
  }

  /** The tool name is the part type without its 'tool-' prefix, and putting
      the prefix back gives the type. */
  lemma ToolNameStripsPrefix(p: Value)
    requires IsToolPart(p)
    ensures ToolCallOf(p).toolName == Get(p, "type").s[|ToolPrefix|..]
    ensures ToolPrefix + ToolCallOf(p).toolName == Get(p, "type").s
  {
    var t := Get(p, "type").s;
    assert IndexOf(t, ToolPrefix) == Some(0);
    assert t == t[..|ToolPrefix|] + t[|ToolPrefix|..];
  }

  /** Status precedence: a present output wins over an error flag; 'error'
      only without any output; 'pending' otherwise. */
  lemma StatusPrecedence(p: Value)
    ensures StatusOf(p) == Complete <==>
      Get(p, "state") == Str("output-available") || Get(p, "output") != Undefined
    ensures StatusOf(p) == Error <==>
      Get(p, "state") != Str("output-available") && Get(p, "output") == Undefined &&
      (Get(p, "state") == Str("error") || Truthy(Get(p, "isError")))
    ensures StatusOf(p) == Pending <==>
      Get(p, "state") != Str("output-available") && Get(p, "output") == Undefined &&
      Get(p, "state") != Str("error") && !Truthy(Get(p, "isError"))
  {
  }

  /** `args` is the first truthy of input and args, else `{}`; `result` is
      the output if truthy, else the result. */
  lemma ToolCallPayload(p: Value)
    requires IsToolPart(p)
    ensures var c := ToolCallOf(p);
      && (Truthy(Get(p, "input")) ==> c.args == Get(p, "input"))
      && (!Truthy(Get(p, "input")) && Truthy(Get(p, "args")) ==> c.args == Get(p, "args"))
      && (!Truthy(Get(p, "input")) && !Truthy(Get(p, "args")) ==> c.args == Obj(map[]))
      && (Truthy(Get(p, "output")) ==> c.result == Get(p, "output"))
      && (!Truthy(Get(p, "output")) ==> c.result == Get(p, "result"))
  {
  }
}
