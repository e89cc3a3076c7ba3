/** The Anthropic wire shape, and how the two wire shapes relate. */
module WireTranslations {
  import opened Kernel
  import opened ToolCalling
  import opened ChatCompletions
  import Json

  datatype AnthropicBlock =
    | AText(text: string)
    | AToolUse(id: string, name: string, input: Json.Fields)
    | AToolResult(toolUseId: string, content: string, isError: bool)

  datatype AnthropicContent = AString(text: string) | ABlocks(blocks: seq<AnthropicBlock>)

  datatype AnthropicMessage = AnthropicMessage(role: Role, content: AnthropicContent)

  datatype ClaudeError = NotAMapping | BadRole | BlankContent | BadContent | UnsupportedBlock

  function ToAnthropicBlock(block: Block): Fallible<AnthropicBlock, ClaudeError> {
    match block
    case TextBlock(text) => Ok(AText(text))
    case ToolUse(id, name, input) => Ok(AToolUse(id, name, Arguments(input)))
    case ToolResult(id, content, isError) => Ok(AToolResult(id, content, isError))
    case OtherBlock => Err(ClaudeError.UnsupportedBlock)
  }

  function ToAnthropicBlocks(blocks: seq<Block>): Fallible<seq<AnthropicBlock>, ClaudeError> {
    if blocks == [] then Ok([])
    else
      match ToAnthropicBlock(blocks[0])
      case Err(error) => Err(error)
      case Ok(first) =>
        match ToAnthropicBlocks(blocks[1..])
        case Err(error) => Err(error)
        case Ok(rest) => Ok([first] + rest)
  }

  function ToAnthropic(message: Message): Fallible<AnthropicMessage, ClaudeError> {
    if message.OtherMessage? then Err(ClaudeError.NotAMapping)
    else if message.role != User && message.role != Assistant then Err(ClaudeError.BadRole)
    else if message.content.Plain? then
      if Blank(message.content.text) then Err(BlankContent)
      else Ok(AnthropicMessage(message.role, AString(message.content.text)))
    else if message.content.OtherContent? || message.content.blocks == [] then Err(ClaudeError.BadContent)
    else
      match ToAnthropicBlocks(message.content.blocks)
      case Err(error) => Err(error)
      case Ok(blocks) => Ok(AnthropicMessage(message.role, ABlocks(blocks)))
  }

  // ----- the chat list as a function of the Anthropic list -----

  function ATexts(blocks: seq<AnthropicBlock>): string {
    if blocks == [] then "" else (if blocks[0].AText? then blocks[0].text else "") + ATexts(blocks[1..])
  }

  function ACalls(blocks: seq<AnthropicBlock>, codec: Codec): seq<ChatCall> {
    if blocks == [] then []
    else (if blocks[0].AToolUse? then [ChatCall(blocks[0].id, blocks[0].name, codec.dumps(blocks[0].input))] else [])
         + ACalls(blocks[1..], codec)
  }

  function AResults(blocks: seq<AnthropicBlock>): seq<ChatMessage> {
    if blocks == [] then []
    else (if blocks[0].AToolResult?
          then [ToolEntry(blocks[0].toolUseId,
                          if blocks[0].isError then "Error: " + blocks[0].content else blocks[0].content)]
          else [])
         + AResults(blocks[1..])
  }

  function ChatFromAnthropic(message: AnthropicMessage, codec: Codec): seq<ChatMessage> {
    match message.content
    case AString(text) => [Entry(message.role, text)]
    case ABlocks(blocks) =>
      if AResults(blocks) != [] then AResults(blocks)
      else if ACalls(blocks, codec) != [] then
        [CallsEntry(if ATexts(blocks) == "" then None else Some(ATexts(blocks)), ACalls(blocks, codec))]
      else [Entry(message.role, ATexts(blocks))]
  }

  lemma SupportedCons(blocks: seq<Block>)
    requires blocks != []
    ensures Supported(blocks) <==> !blocks[0].OtherBlock? && Supported(blocks[1..])
  {
    assert forall i :: 0 < i < |blocks| ==> blocks[i] == blocks[1..][i - 1];
  }

  lemma {:induction false} SupportedTranslates(blocks: seq<Block>)
    ensures ToAnthropicBlocks(blocks).Ok? <==> Supported(blocks)
  {
    if blocks != [] {
      SupportedCons(blocks);
      SupportedTranslates(blocks[1..]);
    }
  }

  lemma {:induction false} BlocksAgree(blocks: seq<Block>, codec: Codec)
    requires ToAnthropicBlocks(blocks).Ok?
    ensures var a := ToAnthropicBlocks(blocks).value;
      && |a| == |blocks|
      && ATexts(a) == Concat(Texts(blocks))
      && ACalls(a, codec) == Calls(blocks, codec)
      && AResults(a) == Results(blocks)
  {
    if blocks != [] {
      BlocksAgree(blocks[1..], codec);
      assert ToAnthropicBlocks(blocks).value[1..] == ToAnthropicBlocks(blocks[1..]).value;
      if blocks[0].TextBlock? {
        assert Texts(blocks)[1..] == Texts(blocks[1..]);
      } else {
        var rest := ATexts(ToAnthropicBlocks(blocks[1..]).value);
        assert "" + rest == rest && Texts(blocks) == Texts(blocks[1..]);
      }
    }
  }

  /** On a message both sides accept, the chat entries are a function of the Anthropic message: the
      same joined text, the same calls and results in order, errors in prefix form. */
  lemma TranslationsAgree(message: Message, codec: Codec)
    requires ChatOf(message, codec).Ok? && ToAnthropic(message).Ok?
    ensures ChatOf(message, codec).value == ChatFromAnthropic(ToAnthropic(message).value, codec)
  {
    if message.content.Blocks? {
      SupportedTranslates(message.content.blocks);
      BlocksAgree(message.content.blocks, codec);
    }
  }

  /** Results stand alone in a user turn; uses stand in an assistant turn. */
  ghost predicate Arranged(role: Role, blocks: seq<Block>) {
    if exists b :: b in blocks && b.ToolResult? then role == User && forall b :: b in blocks ==> b.ToolResult?
    else (exists b :: b in blocks && b.ToolUse?) ==> role == Assistant
  }

  lemma {:induction false} KindsShow(blocks: seq<Block>, codec: Codec)
    ensures Texts(blocks) != [] <==> exists b :: b in blocks && b.TextBlock?
    ensures Calls(blocks, codec) != [] <==> exists b :: b in blocks && b.ToolUse?
    ensures Results(blocks) != [] <==> exists b :: b in blocks && b.ToolResult?
  {
    if blocks != [] {
      KindsShow(blocks[1..], codec);
      assert blocks[0] in blocks;
      assert forall b :: b in blocks <==> b == blocks[0] || b in blocks[1..];
    }
  }

  /** Exactly which messages only one side accepts. */
  lemma WhoAccepts(message: Message, codec: Codec)
    ensures ChatOf(message, codec).Ok? && !ToAnthropic(message).Ok? <==>
      && message.Message?
      && (message.role == System || message.role == User || message.role == Assistant)
      && match message.content
         case Plain(text) => message.role == System || Blank(text)
         case Blocks(blocks) =>
           message.role == System && blocks != [] && Supported(blocks) && Arranged(System, blocks)
         case OtherContent => false
    ensures ToAnthropic(message).Ok? && !ChatOf(message, codec).Ok? <==>
      && message.Message?
      && (message.role == User || message.role == Assistant)
      && message.content.Blocks?
      && message.content.blocks != [] && Supported(message.content.blocks)
      && !Arranged(message.role, message.content.blocks)
  {
    if message.Message? && message.content.Blocks? {
      SupportedTranslates(message.content.blocks);
      KindsShow(message.content.blocks, codec);
    }
  }

  function ChatFromAnthropicAll(messages: seq<Message>, codec: Codec): seq<ChatMessage>
    requires forall i :: 0 <= i < |messages| ==> ToAnthropic(messages[i]).Ok?
  {
    if messages == [] then []
    else ChatFromAnthropic(ToAnthropic(messages[0]).value, codec) + ChatFromAnthropicAll(messages[1..], codec)
  }

  /** The same, for whole histories. */
  lemma {:induction false} HistoriesAgree(messages: seq<Message>, codec: Codec)
    requires ChatOfAll(messages, codec).Ok?
    requires forall i :: 0 <= i < |messages| ==> ToAnthropic(messages[i]).Ok?
    ensures ChatOfAll(messages, codec).value == ChatFromAnthropicAll(messages, codec)
  {
    if messages != [] {
      assert ToAnthropic(messages[0]).Ok?;
      assert forall i :: 0 <= i < |messages[1..]| ==> messages[1..][i] == messages[i + 1];
      TranslationsAgree(messages[0], codec);
      HistoriesAgree(messages[1..], codec);
    }
  }

  // ----- round trip -----

  lemma {:induction false} UsesOnly(calls: seq<ToolCall>, codec: Codec)
    ensures Texts(Uses(calls)) == [] && Results(Uses(calls)) == []
    ensures |Calls(Uses(calls), codec)| == |calls|
    ensures forall i :: 0 <= i < |calls| ==>
      Calls(Uses(calls), codec)[i] == ChatCall(calls[i].id, calls[i].name, codec.dumps(calls[i].arguments))
  {
    if calls != [] {
      UsesOnly(calls[1..], codec);
      assert Uses(calls)[1..] == Uses(calls[1..]);
      assert Calls(Uses(calls), codec)
        == [ChatCall(calls[0].id, calls[0].name, codec.dumps(calls[0].arguments))] + Calls(Uses(calls[1..]), codec);
    }
  }

  lemma {:induction false} EchoedReadsBack(calls: seq<ToolCall>, wire: seq<ChatCall>, codec: Codec)
    requires |wire| == |calls|
    requires forall i :: 0 <= i < |calls| ==> ValidCall(calls[i])
    requires forall i :: 0 <= i < |calls| ==>
      wire[i] == ChatCall(calls[i].id, calls[i].name, codec.dumps(calls[i].arguments))
    ensures ReadCalls(Echoed(wire), codec) == Ok(calls)
       <==> forall i :: 0 <= i < |calls| ==> Survives(codec, calls[i].arguments)
  {
    if calls != [] {
      assert Echoed(wire)[1..] == Echoed(wire[1..]);
      EchoedReadsBack(calls[1..], wire[1..], codec);
      assert ValidCall(calls[0]) && wire[0] == ChatCall(calls[0].id, calls[0].name, codec.dumps(calls[0].arguments));
      assert calls == [calls[0]] + calls[1..];
      var first := ReadCall(Echoed(wire)[0], codec);
      assert first == Ok(calls[0]) <==> Survives(codec, calls[0].arguments);
      assert ReadCalls(Echoed(wire), codec) == Ok(calls)
        <==> first == Ok(calls[0]) && ReadCalls(Echoed(wire[1..]), codec) == Ok(calls[1..]);
      assert forall i :: 0 < i < |calls| ==> calls[i] == calls[1..][i - 1];
    }
  }

  lemma {:induction false} AssistantBlocks(text: string, calls: seq<ToolCall>, codec: Codec)
    ensures var blocks := AssistantTurn(text, calls).content.blocks;
      && Supported(blocks) && Results(blocks) == []
      && Concat(Texts(blocks)) == text
      && Calls(blocks, codec) == Calls(Uses(calls), codec)
  {
    UsesOnly(calls, codec);
    var blocks := AssistantTurn(text, calls).content.blocks;
    if text == "" {
      assert blocks == Uses(calls);
    } else {
      assert blocks[1..] == Uses(calls);
      assert Texts(blocks) == [text] + [];
      assert text + Concat([]) == text;
    }
  }

  /** Whatever the text and the calls, the assistant turn translates to one entry with that text, and
      reading the entry's calls gives the same calls back in order exactly when the arguments of each
      survive `dumps` and `loads`. */
  lemma {:induction false} ToolCallsRoundTrip(text: string, calls: seq<ToolCall>, codec: Codec)
    requires calls != []
    requires forall i :: 0 <= i < |calls| ==> ValidCall(calls[i])
    ensures var chat := ChatOf(AssistantTurn(text, calls), codec);
      && chat.Ok? && |chat.value| == 1 && chat.value[0].CallsEntry?
      && chat.value[0].text == (if text == "" then None else Some(text))
      && (ReadCalls(Echoed(chat.value[0].calls), codec) == Ok(calls)
          <==> forall i :: 0 <= i < |calls| ==> Survives(codec, calls[i].arguments))
  {
    AssistantBlocks(text, calls, codec);
    UsesOnly(calls, codec);
    EchoedReadsBack(calls, Calls(Uses(calls), codec), codec);
  }
}
