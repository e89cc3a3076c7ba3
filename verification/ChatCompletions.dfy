/** Translating neutral messages to the Chat Completions shape, and tool calls back. */
module ChatCompletions {
  import opened Kernel
  import opened ToolCalling
  import Json

  /** `json.dumps` on objects and `json.loads`; nothing about them is assumed. */
  datatype Codec = Codec(dumps: Json.Fields -> string, loads: string -> Option<Json.Value>)

  /** What a reader makes of the text of a call's arguments: a blank text stands for no arguments. */
  function Parsed(codec: Codec, text: string): Option<Json.Value> {
    if Blank(text) then Some(Json.Object(map[])) else codec.loads(text)
  }

  /** These arguments come back from their text as they were. */
  predicate Survives(codec: Codec, arguments: Json.Fields) {
    Parsed(codec, codec.dumps(arguments)) == Some(Json.Object(arguments))
  }

  datatype ChatCall = ChatCall(id: string, name: string, arguments: string)

  datatype ChatMessage =
    | Entry(role: Role, content: string)
    | CallsEntry(text: Option<string>, calls: seq<ChatCall>)
    | ToolEntry(toolCallId: string, content: string)

  datatype ChatError =
    | NoMessages
    | NotAMapping
    | BadRole
    | BadContent
    | UnsupportedBlock
    | ResultsNotAlone
    | UseOutsideAssistant

  function Arguments(input: Json.Value): Json.Fields {
    if input.Object? then input.fields else map[]
  }

  function Texts(blocks: seq<Block>): seq<string> {
    if blocks == [] then []
    else (if blocks[0].TextBlock? then [blocks[0].text] else []) + Texts(blocks[1..])
  }

  /** `"".join(texts)`. */
  function Concat(texts: seq<string>): string {
    if texts == [] then "" else texts[0] + Concat(texts[1..])
  }

  function Calls(blocks: seq<Block>, codec: Codec): seq<ChatCall> {
    if blocks == [] then []
    else (if blocks[0].ToolUse?
          then [ChatCall(blocks[0].id, blocks[0].name, codec.dumps(Arguments(blocks[0].input)))] else [])
         + Calls(blocks[1..], codec)
  }

  function Results(blocks: seq<Block>): seq<ChatMessage> {
    if blocks == [] then []
    else (if blocks[0].ToolResult?
          then [ToolEntry(blocks[0].toolCallId, ErrorText(blocks[0].isError, blocks[0].content))] else [])
         + Results(blocks[1..])
  }

  function ErrorText(isError: bool, content: string): string {
    if isError then "Error: " + content else content
  }

  predicate Supported(blocks: seq<Block>) {
    forall i :: 0 <= i < |blocks| ==> !blocks[i].OtherBlock?
  }

  /** The chat form of one neutral message. */
  function ChatOf(message: Message, codec: Codec): Fallible<seq<ChatMessage>, ChatError> {
    if message.OtherMessage? then Err(NotAMapping)
    else if message.role.OtherRole? then Err(BadRole)
    else if message.content.Plain? then Ok([Entry(message.role, message.content.text)])
    else if message.content.OtherContent? || message.content.blocks == [] then Err(BadContent)
    else
      var blocks := message.content.blocks;
      if !Supported(blocks) then Err(UnsupportedBlock)
      else if Results(blocks) != [] then
        if message.role != User || Texts(blocks) != [] || Calls(blocks, codec) != [] then Err(ResultsNotAlone)
        else Ok(Results(blocks))
      else if Calls(blocks, codec) != [] then
        if message.role != Assistant then Err(UseOutsideAssistant)
        else
          var text := Concat(Texts(blocks));
          Ok([CallsEntry(if text == "" then None else Some(text), Calls(blocks, codec))])
      else Ok([Entry(message.role, Concat(Texts(blocks)))])
  }

  function ChatOfAll(messages: seq<Message>, codec: Codec): Fallible<seq<ChatMessage>, ChatError> {
    if messages == [] then Ok([])
    else
      match ChatOf(messages[0], codec)
      case Err(error) => Err(error)
      case Ok(first) =>
        match ChatOfAll(messages[1..], codec)
        case Err(error) => Err(error)
        case Ok(rest) => Ok(first + rest)
  }

  function ToChat(messages: seq<Message>, system: Option<string>, codec: Codec): Fallible<seq<ChatMessage>, ChatError> {
    if messages == [] then Err(NoMessages)
    else
      match ChatOfAll(messages, codec)
      case Err(error) => Err(error)
      case Ok(out) => Ok((if system.Some? then [Entry(System, system.value)] else []) + out)
  }

  // ----- the translator's loops, against these meanings -----

  lemma {:induction false} TextsSnoc(blocks: seq<Block>, b: Block)
    ensures Texts(blocks + [b]) == Texts(blocks) + (if b.TextBlock? then [b.text] else [])
  {
    if blocks == [] {
      assert [b][1..] == [];
    } else {
      TextsSnoc(blocks[1..], b);
      assert (blocks + [b])[1..] == blocks[1..] + [b];
    }
  }

  lemma {:induction false} CallsSnoc(blocks: seq<Block>, b: Block, codec: Codec)
    ensures Calls(blocks + [b], codec) == Calls(blocks, codec)
      + (if b.ToolUse? then [ChatCall(b.id, b.name, codec.dumps(Arguments(b.input)))] else [])
  {
    if blocks == [] {
      assert [b][1..] == [];
    } else {
      CallsSnoc(blocks[1..], b, codec);
      assert (blocks + [b])[1..] == blocks[1..] + [b];
    }
  }

  lemma {:induction false} ResultsSnoc(blocks: seq<Block>, b: Block)
    ensures Results(blocks + [b]) == Results(blocks)
      + (if b.ToolResult? then [ToolEntry(b.toolCallId, ErrorText(b.isError, b.content))] else [])
  {
    if blocks == [] {
      assert [b][1..] == [];
    } else {
      ResultsSnoc(blocks[1..], b);
      assert (blocks + [b])[1..] == blocks[1..] + [b];
    }
  }

  /** The loop over blocks: three lists grow side by side, and a block of another type ends it. */
  method SortBlocks(blocks: seq<Block>, codec: Codec)
    returns (supported: bool, texts: seq<string>, toolCalls: seq<ChatCall>, toolResults: seq<ChatMessage>)
    ensures supported <==> Supported(blocks)
    ensures supported ==>
      texts == Texts(blocks) && toolCalls == Calls(blocks, codec) && toolResults == Results(blocks)
  {
    texts, toolCalls, toolResults := [], [], [];
    for k := 0 to |blocks|
      invariant forall i :: 0 <= i < k ==> !blocks[i].OtherBlock?
      invariant texts == Texts(blocks[..k])
      invariant toolCalls == Calls(blocks[..k], codec)
      invariant toolResults == Results(blocks[..k])
    {
      var b := blocks[k];
      assert blocks[..k + 1] == blocks[..k] + [b];
      TextsSnoc(blocks[..k], b);
      CallsSnoc(blocks[..k], b, codec);
      ResultsSnoc(blocks[..k], b);
      match b {
        case TextBlock(text) => texts := texts + [text];
        case ToolUse(id, name, input) => toolCalls := toolCalls + [ChatCall(id, name, codec.dumps(Arguments(input)))];
        case ToolResult(id, content, isError) => toolResults := toolResults + [ToolEntry(id, ErrorText(isError, content))];
        case OtherBlock => return false, texts, toolCalls, toolResults;
      }
    }
    assert blocks[..|blocks|] == blocks;
    supported := true;
  }

  method MessageToChat(message: Message, codec: Codec) returns (r: Fallible<seq<ChatMessage>, ChatError>)
    ensures r == ChatOf(message, codec)
  {
    if message.OtherMessage? {
      return Err(NotAMapping);
    }
    if message.role.OtherRole? {
      return Err(BadRole);
    }
    if message.content.Plain? {
      return Ok([Entry(message.role, message.content.text)]);
    }
    if message.content.OtherContent? || message.content.blocks == [] {
      return Err(BadContent);
    }
    var supported, texts, toolCalls, toolResults := SortBlocks(message.content.blocks, codec);
    if !supported {
      return Err(UnsupportedBlock);
    }
    if toolResults != [] {
      if message.role != User || texts != [] || toolCalls != [] {
        return Err(ResultsNotAlone);
      }
      return Ok(toolResults);
    }
    if toolCalls != [] {
      if message.role != Assistant {
        return Err(UseOutsideAssistant);
      }
      var text := Concat(texts);
      return Ok([CallsEntry(if text == "" then None else Some(text), toolCalls)]);
    }
    return Ok([Entry(message.role, Concat(texts))]);
  }

  function Appended(out: Fallible<seq<ChatMessage>, ChatError>, last: Fallible<seq<ChatMessage>, ChatError>):
      Fallible<seq<ChatMessage>, ChatError>
  {
    if out.Err? then out else if last.Err? then last else Ok(out.value + last.value)
  }

  lemma {:induction false} ChatOfAllSnoc(messages: seq<Message>, m: Message, codec: Codec)
    ensures ChatOfAll(messages + [m], codec) == Appended(ChatOfAll(messages, codec), ChatOf(m, codec))
  {
    if messages == [] {
      assert [m][1..] == [];
      assert messages + [m] == [m];
      assert ChatOf(m, codec).Ok? ==> ChatOf(m, codec).value + [] == [] + ChatOf(m, codec).value;
    } else {
      ChatOfAllSnoc(messages[1..], m, codec);
      assert (messages + [m])[1..] == messages[1..] + [m];
      var first, rest, last := ChatOf(messages[0], codec), ChatOfAll(messages[1..], codec), ChatOf(m, codec);
      if first.Ok? && rest.Ok? && last.Ok? {
        Associate(first.value, rest.value, last.value);
      }
    }
  }

  lemma {:induction false} ChatOfAllStopsAt(messages: seq<Message>, k: nat, codec: Codec)
    requires k <= |messages| && ChatOfAll(messages[..k], codec).Err?
    ensures ChatOfAll(messages, codec) == ChatOfAll(messages[..k], codec)
  {
    if k > 0 {
      assert messages[..k][1..] == messages[1..][..k - 1];
      if ChatOf(messages[0], codec).Ok? {
        ChatOfAllStopsAt(messages[1..], k - 1, codec);
      }
    }
  }

  lemma {:induction false} ChatOfAllNext(messages: seq<Message>, k: nat, codec: Codec)
    requires k < |messages|
    ensures ChatOfAll(messages[..k + 1], codec) == Appended(ChatOfAll(messages[..k], codec), ChatOf(messages[k], codec))
  {
    assert messages[..k + 1] == messages[..k] + [messages[k]];
    ChatOfAllSnoc(messages[..k], messages[k], codec);
  }

  method MessagesToChat(messages: seq<Message>, system: Option<string>, codec: Codec)
    returns (r: Fallible<seq<ChatMessage>, ChatError>)
    ensures r == ToChat(messages, system, codec)
  {
    if messages == [] {
      return Err(NoMessages);
    }
    var out: seq<ChatMessage> := [];
    if system.Some? {
      out := [Entry(System, system.value)];
    }
    ghost var lead, sofar: seq<ChatMessage> := out, [];
    for k := 0 to |messages|
      invariant ChatOfAll(messages[..k], codec) == Ok(sofar) && out == lead + sofar
    {
      ChatOfAllNext(messages, k, codec);
      var one := MessageToChat(messages[k], codec);
      if one.Err? {
        ChatOfAllStopsAt(messages, k + 1, codec);
        return Err(one.error);
      }
      Associate(lead, sofar, one.value);
      out, sofar := out + one.value, sofar + one.value;
    }
    assert messages[..|messages|] == messages;
    return Ok(out);
  }

  // ----- reading the calls of a response -----

  datatype RawArguments = NoArguments | ArgumentText(text: string) | OtherArguments

  /** One entry of a response's `tool_calls`; None where the field is missing or not a string. */
  datatype RawCall = RawCall(id: Option<string>, name: Option<string>, arguments: RawArguments)

  datatype ReadError = NoId | NoName | ArgumentsNotText | ArgumentsNotJson | ArgumentsNotObject | BlankIdOrName

  function ReadCall(raw: RawCall, codec: Codec): Fallible<ToolCall, ReadError> {
    if raw.id.None? || raw.id.value == "" then Err(NoId)
    else if raw.name.None? || raw.name.value == "" then Err(NoName)
    else if raw.arguments.OtherArguments? then Err(ArgumentsNotText)
    else
      var text := if raw.arguments.NoArguments? then "" else raw.arguments.text;
      var parsed := Parsed(codec, text);
      if parsed.None? then Err(ArgumentsNotJson)
      else if !parsed.value.Object? then Err(ArgumentsNotObject)
      else if Blank(raw.id.value) || Blank(raw.name.value) then Err(BlankIdOrName)
      else Ok(ToolCall(raw.id.value, raw.name.value, parsed.value.fields))
  }

  function ReadCalls(raws: seq<RawCall>, codec: Codec): Fallible<seq<ToolCall>, ReadError> {
    if raws == [] then Ok([])
    else
      match ReadCall(raws[0], codec)
      case Err(error) => Err(error)
      case Ok(call) =>
        match ReadCalls(raws[1..], codec)
        case Err(error) => Err(error)
        case Ok(rest) => Ok([call] + rest)
  }

  /** A chat entry's calls, as a server would send them back. */
  function Echoed(calls: seq<ChatCall>): (raws: seq<RawCall>)
    ensures |raws| == |calls|
  {
    seq(|calls|, i requires 0 <= i < |calls| =>
      RawCall(Some(calls[i].id), Some(calls[i].name), ArgumentText(calls[i].arguments)))
  }

  method ToolCallsFromChat(raws: seq<RawCall>, codec: Codec) returns (r: Fallible<seq<ToolCall>, ReadError>)
    ensures r == ReadCalls(raws, codec)
  {
    var calls: seq<ToolCall> := [];
    var k := 0;
    ghost var tail := ReadCalls(raws, codec);
    assert raws[0..] == raws && (tail.Ok? ==> calls + tail.value == tail.value);
    while k < |raws|
      invariant k <= |raws|
      invariant ReadCalls(raws, codec) ==
        match ReadCalls(raws[k..], codec)
        case Err(error) => Err(error)
        case Ok(rest) => Ok(calls + rest)
    {
      assert raws[k..][1..] == raws[k + 1..];
      var one := ReadCall(raws[k], codec);
      if one.Err? {
        return Err(one.error);
      }
      tail := ReadCalls(raws[k + 1..], codec);
      assert tail.Ok? ==> calls + ([one.value] + tail.value) == calls + [one.value] + tail.value;
      calls := calls + [one.value];
      k := k + 1;
    }
    assert calls + [] == calls;
    return Ok(calls);
  }
}
