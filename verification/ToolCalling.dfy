/** Tool calls and the provider-neutral message shape that carries them. */
module ToolCalling {
  import opened Kernel
  import Json

  datatype ToolCall = ToolCall(id: string, name: string, arguments: Json.Fields)

  datatype ResultBlock = ResultBlock(toolCallId: string, content: string, isError: bool)

  datatype Role = System | User | Assistant | OtherRole(name: string)

  datatype Block =
    | TextBlock(text: string)
    | ToolUse(id: string, name: string, input: Json.Value)
    | ToolResult(toolCallId: string, content: string, isError: bool)
    | OtherBlock  // not a mapping, or a mapping of another type

  datatype Content = Plain(text: string) | Blocks(blocks: seq<Block>) | OtherContent

  datatype Message = Message(role: Role, content: Content) | OtherMessage

  /** What `ToolCall` checks when it is built. */
  predicate ValidCall(call: ToolCall) {
    !Blank(call.id) && !Blank(call.name)
  }

  function Uses(calls: seq<ToolCall>): (blocks: seq<Block>)
    ensures |blocks| == |calls|
  {
    seq(|calls|, i requires 0 <= i < |calls| => ToolUse(calls[i].id, calls[i].name, Json.Object(calls[i].arguments)))
  }

  function Answers(results: seq<ResultBlock>): (blocks: seq<Block>)
    ensures |blocks| == |results|
  {
    seq(|results|, i requires 0 <= i < |results| =>
      ToolResult(results[i].toolCallId, results[i].content, results[i].isError))
  }

  function AssistantTurn(text: string, calls: seq<ToolCall>): Message {
    Message(Assistant, Blocks((if text == "" then [] else [TextBlock(text)]) + Uses(calls)))
  }

  function ResultsTurn(results: seq<ResultBlock>): Message {
    Message(User, Blocks(Answers(results)))
  }

  /** An optional text block, then one block per call. */
  method AssistantMessage(text: string, calls: seq<ToolCall>) returns (message: Message)
    ensures message == AssistantTurn(text, calls)
  {
    var blocks: seq<Block> := [];
    if text != "" {
      blocks := blocks + [TextBlock(text)];
    }
    ghost var lead := blocks;
    for k := 0 to |calls|
      invariant blocks == lead + Uses(calls[..k])
    {
      assert Uses(calls[..k + 1]) == Uses(calls[..k]) + [ToolUse(calls[k].id, calls[k].name, Json.Object(calls[k].arguments))];
      blocks := blocks + [ToolUse(calls[k].id, calls[k].name, Json.Object(calls[k].arguments))];
    }
    assert calls[..|calls|] == calls;
    assert blocks == (if text == "" then [] else [TextBlock(text)]) + Uses(calls);
    return Message(Assistant, Blocks(blocks));
  }

  datatype ToolCallingError = NoResults

  function ToolResultsMessage(results: seq<ResultBlock>): (r: Fallible<Message, ToolCallingError>)
    ensures r.Ok? <==> results != []
    ensures r.Ok? ==> r.value.Message? && r.value.role == User && r.value.content.Blocks?
                      && |r.value.content.blocks| == |results|
    ensures r.Ok? ==> forall i :: 0 <= i < |results| ==>
              var block := r.value.content.blocks[i];
              block.ToolResult? && block.toolCallId == results[i].toolCallId
              && block.content == results[i].content && block.isError == results[i].isError
  {
    if results == [] then Err(NoResults) else Ok(ResultsTurn(results))
  }
}
