/** What each wire shape says of a message, block by block, and what is read back out of a response. */
module WireContents {
  import opened Kernel
  import opened ToolCalling
  import opened ChatCompletions
  import opened WireTranslations
  import Json

  predicate IsText(block: Block) {
    block.TextBlock?
  }

  predicate IsUse(block: Block) {
    block.ToolUse?
  }

  predicate IsResult(block: Block) {
    block.ToolResult?
  }

  // ----- the Anthropic shape -----

  ghost predicate SameBlock(block: Block, a: AnthropicBlock) {
    match block
    case TextBlock(text) => a == AText(text)
    case ToolUse(id, name, input) => a == AToolUse(id, name, if input.Object? then input.fields else map[])
    case ToolResult(id, content, isError) => a == AToolResult(id, content, isError)
    case OtherBlock => false
  }

  lemma {:induction false} BlocksCarried(blocks: seq<Block>)
    requires ToAnthropicBlocks(blocks).Ok?
    ensures |ToAnthropicBlocks(blocks).value| == |blocks|
    ensures forall i :: 0 <= i < |blocks| ==> SameBlock(blocks[i], ToAnthropicBlocks(blocks).value[i])
  {
    if blocks != [] {
      BlocksCarried(blocks[1..]);
      var a := ToAnthropicBlocks(blocks).value;
      assert a[1..] == ToAnthropicBlocks(blocks[1..]).value;
      forall i | 0 <= i < |blocks|
        ensures SameBlock(blocks[i], a[i])
      {
        if i > 0 {
          assert SameBlock(blocks[1..][i - 1], a[1..][i - 1]);
        }
      }
    }
  }

  /** A translated message keeps its role; its text, or its blocks one for one: the same text, the same
      call with the same input, the same result with the content untouched and the error flag as set. */
  lemma AnthropicCarries(message: Message)
    requires ToAnthropic(message).Ok?
    ensures message.Message? && ToAnthropic(message).value.role == message.role
    ensures message.role == User || message.role == Assistant
    ensures match message.content
      case Plain(text) => ToAnthropic(message).value.content == AString(text)
      case Blocks(blocks) =>
        && ToAnthropic(message).value.content.ABlocks?
        && |ToAnthropic(message).value.content.blocks| == |blocks|
        && forall i :: 0 <= i < |blocks| ==> SameBlock(blocks[i], ToAnthropic(message).value.content.blocks[i])
      case OtherContent => false
  {
    if message.content.Blocks? {
      BlocksCarried(message.content.blocks);
    }
  }

  // ----- the chat shape -----

  /** Joining is concatenation, part by part. */
  lemma {:induction false} JoinsInOrder(texts: seq<string>, last: string)
    ensures Concat([]) == ""
    ensures Concat(texts + [last]) == Concat(texts) + last
  {
    if texts == [] {
      assert [last][1..] == [];
    } else {
      JoinsInOrder(texts[1..], last);
      assert (texts + [last])[1..] == texts[1..] + [last];
      Associate(texts[0], Concat(texts[1..]), last);
    }
  }

  lemma {:induction false} TextsCarried(blocks: seq<Block>)
    ensures |Texts(blocks)| == |Positions(blocks, IsText)|
    ensures forall a :: 0 <= a < |Texts(blocks)| ==>
              var i := Positions(blocks, IsText)[a];
              i < |blocks| && blocks[i] == TextBlock(Texts(blocks)[a])
  {
    if blocks != [] {
      var front, last := blocks[..|blocks| - 1], blocks[|blocks| - 1];
      TextsCarried(front);
      TextsSnoc(front, last);
      assert blocks == front + [last];
    }
  }

  /** The chat form of one call. */
  ghost predicate SameCall(block: Block, call: ChatCall, codec: Codec) {
    && block.ToolUse? && call.id == block.id && call.name == block.name
    && call.arguments == codec.dumps(if block.input.Object? then block.input.fields else map[])
  }

  lemma {:induction false} CallsCarried(blocks: seq<Block>, codec: Codec)
    ensures |Calls(blocks, codec)| == |Positions(blocks, IsUse)|
    ensures forall a :: 0 <= a < |Calls(blocks, codec)| ==>
              var i := Positions(blocks, IsUse)[a];
              i < |blocks| && SameCall(blocks[i], Calls(blocks, codec)[a], codec)
  {
    if blocks != [] {
      var front, last := blocks[..|blocks| - 1], blocks[|blocks| - 1];
      CallsCarried(front, codec);
      CallsSnoc(front, last, codec);
      assert blocks == front + [last];
    }
  }

  /** The entry of one result: an error is told by its prefix, any other content is left as it is. */
  ghost predicate SameResult(block: Block, entry: ChatMessage) {
    && block.ToolResult?
    && entry == ToolEntry(block.toolCallId, if block.isError then "Error: " + block.content else block.content)
  }

  lemma {:induction false} ResultsCarried(blocks: seq<Block>)
    requires forall i :: 0 <= i < |blocks| ==> blocks[i].ToolResult?
    ensures |Results(blocks)| == |blocks|
    ensures forall i :: 0 <= i < |blocks| ==> SameResult(blocks[i], Results(blocks)[i])
  {
    if blocks != [] {
      ResultsCarried(blocks[1..]);
      forall i | 0 <= i < |blocks|
        ensures SameResult(blocks[i], Results(blocks)[i])
      {
        if i > 0 {
          assert SameResult(blocks[1..][i - 1], Results(blocks[1..])[i - 1]);
          assert Results(blocks)[i] == Results(blocks[1..])[i - 1];
        }
      }
    }
  }

  /** The parts of a turn's text, in order. */
  ghost predicate TextParts(blocks: seq<Block>, q: seq<nat>, parts: seq<string>) {
    && Lists(q, blocks, IsText) && |parts| == |q|
    && forall a :: 0 <= a < |q| ==> q[a] < |blocks| && blocks[q[a]] == TextBlock(parts[a])
  }

  ghost predicate CallParts(blocks: seq<Block>, p: seq<nat>, calls: seq<ChatCall>, codec: Codec) {
    && Lists(p, blocks, IsUse) && |calls| == |p|
    && forall a :: 0 <= a < |p| ==> p[a] < |blocks| && SameCall(blocks[p[a]], calls[a], codec)
  }

  lemma {:induction false} PartsCarried(blocks: seq<Block>, codec: Codec)
    ensures TextParts(blocks, Positions(blocks, IsText), Texts(blocks))
    ensures CallParts(blocks, Positions(blocks, IsUse), Calls(blocks, codec), codec)
  {
    PositionsList(blocks, IsText);
    PositionsList(blocks, IsUse);
    TextsCarried(blocks);
    CallsCarried(blocks, codec);
  }

  lemma ResultsStandAlone(message: Message, codec: Codec)
    requires ChatOf(message, codec).Ok? && message.content.Blocks?
    requires exists b :: b in message.content.blocks && b.ToolResult?
    ensures message.role == User && ChatOf(message, codec).value == Results(message.content.blocks)
    ensures forall i :: 0 <= i < |message.content.blocks| ==> message.content.blocks[i].ToolResult?
  {
    var blocks := message.content.blocks;
    KindsShow(blocks, codec);
    forall i | 0 <= i < |blocks|
      ensures blocks[i].ToolResult?
    {
      assert blocks[i] in blocks;
    }
  }

  /** The entries of a turn with blocks, if `calls` are its calls and `text` its joined texts. Results stand
      alone in a user turn and become one entry each. Calls stand in an assistant turn and become one entry
      with all of them in order, and the turn's text if there is any. Other blocks become one entry with
      their text. */
  ghost predicate BlocksSay(role: Role, blocks: seq<Block>, calls: seq<ChatCall>, text: string, out: seq<ChatMessage>) {
    if exists b :: b in blocks && b.ToolResult? then
      role == User && |out| == |blocks| && forall i :: 0 <= i < |blocks| ==> SameResult(blocks[i], out[i])
    else if calls != [] then
      role == Assistant && out == [CallsEntry(if text == "" then None else Some(text), calls)]
    else
      out == [Entry(role, text)]
  }

  /** The entries of an accepted message: a plain text is one entry of its role, and blocks say what
      `BlocksSay` of their calls, arguments written out, and of their texts, both in order. */
  lemma ChatCarries(message: Message, codec: Codec) returns (p: seq<nat>, q: seq<nat>)
    requires ChatOf(message, codec).Ok?
    ensures message.Message? && message.role in [System, User, Assistant] && !message.content.OtherContent?
    ensures message.content.Plain? ==> ChatOf(message, codec).value == [Entry(message.role, message.content.text)]
    ensures message.content.Blocks? ==>
              exists calls, parts ::
                && CallParts(message.content.blocks, p, calls, codec)
                && TextParts(message.content.blocks, q, parts)
                && BlocksSay(message.role, message.content.blocks, calls, Concat(parts), ChatOf(message, codec).value)
  {
    p, q := [], [];
    if message.content.Blocks? {
      var blocks := message.content.blocks;
      p, q := Positions(blocks, IsUse), Positions(blocks, IsText);
      PartsCarried(blocks, codec);
      KindsShow(blocks, codec);
      if exists b :: b in blocks && b.ToolResult? {
        ResultsStandAlone(message, codec);
        ResultsCarried(blocks);
      }
      assert BlocksSay(message.role, blocks, Calls(blocks, codec), Concat(Texts(blocks)), ChatOf(message, codec).value);
    }
  }

  /** A results turn in both shapes at once: entry by block, the same id, and the content as it is on the
      Anthropic side unless that block is marked as an error. */
  lemma ResultsAgree(message: Message, codec: Codec)
    requires ChatOf(message, codec).Ok? && ToAnthropic(message).Ok? && message.content.Blocks?
    requires exists b :: b in message.content.blocks && b.ToolResult?
    ensures var chat, a := ChatOf(message, codec).value, ToAnthropic(message).value;
      && a.role == User && a.content.ABlocks? && |chat| == |a.content.blocks| == |message.content.blocks|
      && forall i :: 0 <= i < |chat| ==>
           && a.content.blocks[i].AToolResult?
           && chat[i] == ToolEntry(a.content.blocks[i].toolUseId,
                                   if a.content.blocks[i].isError then "Error: " + a.content.blocks[i].content
                                   else a.content.blocks[i].content)
  {
    AnthropicCarries(message);
    ResultsStandAlone(message, codec);
    ResultsCarried(message.content.blocks);
    var chat, a := ChatOf(message, codec).value, ToAnthropic(message).value.content.blocks;
    forall i | 0 <= i < |chat|
      ensures a[i].AToolResult?
      ensures chat[i] == ToolEntry(a[i].toolUseId, if a[i].isError then "Error: " + a[i].content else a[i].content)
    {
      assert SameBlock(message.content.blocks[i], a[i]) && SameResult(message.content.blocks[i], chat[i]);
    }
  }

  // ----- why a message is refused -----

  /** Each refusal names a fault the message has. */
  lemma RefusalsAreTrue(message: Message, codec: Codec)
    ensures ChatOf(message, codec).Err? ==>
      match ChatOf(message, codec).error
      case NoMessages => false
      case NotAMapping => message.OtherMessage?
      case BadRole => message.Message? && message.role !in [System, User, Assistant]
      case BadContent => message.Message? && (message.content.OtherContent? || message.content == Blocks([]))
      case UnsupportedBlock => message.Message? && message.content.Blocks? && OtherBlock in message.content.blocks
      case ResultsNotAlone =>
        && message.Message? && message.content.Blocks?
        && (exists b :: b in message.content.blocks && b.ToolResult?)
        && (message.role != User || exists b :: b in message.content.blocks && !b.ToolResult?)
      case UseOutsideAssistant =>
        && message.Message? && message.content.Blocks? && message.role != Assistant
        && exists b :: b in message.content.blocks && b.ToolUse?
    ensures ToAnthropic(message).Err? ==>
      match ToAnthropic(message).error
      case NotAMapping => message.OtherMessage?
      case BadRole => message.Message? && message.role !in [User, Assistant]
      case BlankContent => message.Message? && message.content.Plain? && Blank(message.content.text)
      case BadContent => message.Message? && (message.content.OtherContent? || message.content == Blocks([]))
      case UnsupportedBlock => message.Message? && message.content.Blocks? && OtherBlock in message.content.blocks
  {
    if message.Message? && message.content.Blocks? {
      KindsShow(message.content.blocks, codec);
      SupportedTranslates(message.content.blocks);
      RefusedBlock(message.content.blocks);
    }
  }

  lemma {:induction false} RefusedBlock(blocks: seq<Block>)
    ensures ToAnthropicBlocks(blocks).Err? ==> ToAnthropicBlocks(blocks).error == ClaudeError.UnsupportedBlock
    ensures !Supported(blocks) ==> OtherBlock in blocks
  {
    if blocks != [] {
      RefusedBlock(blocks[1..]);
    }
  }

  // ----- reading the calls of a response -----

  /** A call is read exactly when it has a non-blank id and name, and its arguments are absent, blank, or
      the text of an object; it is then that id, that name and that object. */
  lemma CallIsRead(raw: RawCall, codec: Codec)
    ensures ReadCall(raw, codec).Ok?
       <==> && raw.id.Some? && !Blank(raw.id.value) && raw.name.Some? && !Blank(raw.name.value)
            && match raw.arguments
               case NoArguments => true
               case ArgumentText(text) => Blank(text) || (codec.loads(text).Some? && codec.loads(text).value.Object?)
               case OtherArguments => false
    ensures ReadCall(raw, codec).Ok? ==>
              var call := ReadCall(raw, codec).value;
              && call.id == raw.id.value && call.name == raw.name.value
              && Json.Object(call.arguments)
                 == if raw.arguments.NoArguments? || Blank(raw.arguments.text) then Json.Object(map[])
                    else codec.loads(raw.arguments.text).value
  {
    assert Blank("");
  }

  /** All calls are read, in order, exactly when each one can be; otherwise the first that cannot decides. */
  lemma {:induction false} CallsAreRead(raws: seq<RawCall>, codec: Codec)
    ensures ReadCalls(raws, codec).Ok? <==> forall i :: 0 <= i < |raws| ==> ReadCall(raws[i], codec).Ok?
    ensures ReadCalls(raws, codec).Ok? ==>
              && |ReadCalls(raws, codec).value| == |raws|
              && forall i :: 0 <= i < |raws| ==> ReadCall(raws[i], codec) == Ok(ReadCalls(raws, codec).value[i])
    ensures ReadCalls(raws, codec).Err? ==>
              exists i :: 0 <= i < |raws| && ReadCall(raws[i], codec) == Err(ReadCalls(raws, codec).error)
                          && forall j :: 0 <= j < i ==> ReadCall(raws[j], codec).Ok?
  {
    if raws != [] {
      CallsAreRead(raws[1..], codec);
      assert forall i :: 0 < i < |raws| ==> raws[i] == raws[1..][i - 1];
      if ReadCall(raws[0], codec).Ok? && ReadCalls(raws[1..], codec).Err? {
        var i :| 0 <= i < |raws[1..]| && ReadCall(raws[1..][i], codec) == Err(ReadCalls(raws[1..], codec).error)
                 && forall j :: 0 <= j < i ==> ReadCall(raws[1..][j], codec).Ok?;
        assert raws[i + 1] == raws[1..][i];
      }
    }
  }
}
