/** Every history the tool loop sends can be translated again, and stays well paired on the wire. */
module ToolLoopReplay {
  import opened Kernel
  import opened ToolCalling
  import opened ToolLoop
  import opened ToolLoopTheorems
  import opened ChatCompletions
  import opened WireTranslations

  /** The entries after k calls start with exactly k tool entries, with those ids in order. */
  ghost predicate Follows(calls: seq<ChatCall>, rest: seq<ChatMessage>) {
    && |calls| <= |rest|
    && (forall j :: 0 <= j < |calls| ==> rest[j].ToolEntry? && rest[j].toolCallId == calls[j].id)
    && (|calls| < |rest| ==> !rest[|calls|].ToolEntry?)
  }

  ghost predicate ChatPaired(out: seq<ChatMessage>) {
    out == [] || ((out[0].CallsEntry? ==> Follows(out[0].calls, out[1..])) && ChatPaired(out[1..]))
  }

  /** The translation accepts the messages and, when `paired` asks for it, pairs their calls. */
  ghost predicate Replayable(messages: seq<Message>, codec: Codec, paired: bool) {
    ChatOfAll(messages, codec).Ok? && (paired ==> ChatPaired(ChatOfAll(messages, codec).value))
  }

  lemma {:induction false} PairedConcat(a: seq<ChatMessage>, b: seq<ChatMessage>)
    requires ChatPaired(a) && ChatPaired(b) && (b != [] ==> !b[0].ToolEntry?)
    ensures ChatPaired(a + b)
  {
    if a == [] {
      assert a + b == b;
    } else {
      PairedConcat(a[1..], b);
      assert (a + b)[1..] == a[1..] + b;
    }
  }

  lemma {:induction false} ToolEntriesPaired(results: seq<ChatMessage>)
    requires forall j :: 0 <= j < |results| ==> results[j].ToolEntry?
    ensures ChatPaired(results)
  {
    if results != [] {
      ToolEntriesPaired(results[1..]);
    }
  }

  lemma {:induction false} RoundPaired(entry: ChatMessage, results: seq<ChatMessage>)
    requires entry.CallsEntry? && |results| == |entry.calls|
    requires forall j :: 0 <= j < |results| ==> results[j].ToolEntry? && results[j].toolCallId == entry.calls[j].id
    ensures ChatPaired([entry] + results)
  {
    ToolEntriesPaired(results);
    assert ([entry] + results)[1..] == results;
  }

  /** The leading system entry does not disturb the pairing. */
  lemma {:induction false} SystemEntryKeepsPairing(messages: seq<Message>, system: Option<string>, codec: Codec)
    requires messages != [] && Replayable(messages, codec, true)
    ensures ToChat(messages, system, codec).Ok? && ChatPaired(ToChat(messages, system, codec).value)
    ensures |ToChat(messages, system, codec).value|
      == (if system.Some? then 1 else 0) + |ChatOfAll(messages, codec).value|
    ensures system.Some? ==> ToChat(messages, system, codec).value[0] == Entry(System, system.value)
    ensures ChatOfAll(messages, codec).value <= ToChat(messages, system, codec).value[if system.Some? then 1 else 0..]
  {
    var out := ChatOfAll(messages, codec).value;
    if system.Some? {
      assert ([Entry(System, system.value)] + out)[1..] == out;
    } else {
      assert [] + out == out;
    }
  }

  /** How many chat entries one message becomes. */
  function FanOut(message: Message): nat {
    if message.Message? && message.content.Blocks? && Results(message.content.blocks) != []
    then |Results(message.content.blocks)| else 1
  }

  function TotalFanOut(messages: seq<Message>): nat {
    if messages == [] then 0 else FanOut(messages[0]) + TotalFanOut(messages[1..])
  }

  lemma {:induction false} ChatLength(messages: seq<Message>, codec: Codec)
    requires ChatOfAll(messages, codec).Ok?
    ensures |ChatOfAll(messages, codec).value| == TotalFanOut(messages)
  {
    if messages != [] {
      ChatLength(messages[1..], codec);
    }
  }

  // ----- the two turns a round adds -----

  lemma {:induction false} AnswersTranslate(results: seq<ResultBlock>, codec: Codec)
    ensures var blocks := Answers(results);
      && Texts(blocks) == [] && Calls(blocks, codec) == []
      && |Results(blocks)| == |results|
      && forall i :: 0 <= i < |results| ==>
           Results(blocks)[i] == ToolEntry(results[i].toolCallId,
                                           if results[i].isError then "Error: " + results[i].content else results[i].content)
  {
    if results != [] {
      AnswersTranslate(results[1..], codec);
      assert Answers(results)[1..] == Answers(results[1..]);
      var first := ToolEntry(results[0].toolCallId, ErrorText(results[0].isError, results[0].content));
      assert Results(Answers(results)) == [first] + Results(Answers(results[1..]));
    }
  }

  lemma ResultsTurnTranslates(results: seq<ResultBlock>, codec: Codec)
    requires results != []
    ensures ChatOf(ResultsTurn(results), codec) == Ok(Results(Answers(results)))
  {
    AnswersTranslate(results, codec);
  }

  function CallsEntryOf(text: string, calls: seq<ToolCall>, codec: Codec): ChatMessage {
    CallsEntry(if text == "" then None else Some(text), Calls(Uses(calls), codec))
  }

  lemma AssistantTurnTranslates(text: string, calls: seq<ToolCall>, codec: Codec)
    ensures calls != [] ==> ChatOf(AssistantTurn(text, calls), codec) == Ok([CallsEntryOf(text, calls, codec)])
    ensures calls == [] && text != "" ==> ChatOf(AssistantTurn(text, calls), codec) == Ok([Entry(Assistant, text)])
    ensures calls == [] && text == "" ==> ChatOf(AssistantTurn(text, calls), codec).Err?
  {
    AssistantBlocks(text, calls, codec);
    UsesOnly(calls, codec);
  }

  lemma {:induction false} RoundChat(history: seq<Message>, turn: Message, answers: Message, codec: Codec)
    requires ChatOfAll(history, codec).Ok? && ChatOf(turn, codec).Ok? && ChatOf(answers, codec).Ok?
    ensures ChatOfAll(history + [turn] + [answers], codec)
      == Ok(ChatOfAll(history, codec).value + (ChatOf(turn, codec).value + ChatOf(answers, codec).value))
  {
    var a, b, c := ChatOfAll(history, codec).value, ChatOf(turn, codec).value, ChatOf(answers, codec).value;
    ChatOfAllSnoc(history, turn, codec);
    ChatOfAllSnoc(history + [turn], answers, codec);
    assert a + b + c == a + (b + c);
  }

  lemma RoundEntriesPaired(text: string, calls: seq<ToolCall>, results: seq<ResultBlock>, codec: Codec)
    requires Answered(Uses(calls), Answers(results))
    ensures ChatPaired([CallsEntryOf(text, calls, codec)] + Results(Answers(results)))
  {
    UsesOnly(calls, codec);
    AnswersTranslate(results, codec);
    var entry := CallsEntryOf(text, calls, codec);
    forall j | 0 <= j < |results|
      ensures Results(Answers(results))[j].toolCallId == entry.calls[j].id
    {
      assert Uses(calls)[j].id == Answers(results)[j].toolCallId;
    }
    RoundPaired(entry, Results(Answers(results)));
  }

  lemma RoundReplays(
      history: seq<Message>, text: string, calls: seq<ToolCall>, results: seq<ResultBlock>, codec: Codec, paired: bool)
    requires Replayable(history, codec, paired) && calls != [] && Answered(Uses(calls), Answers(results))
    ensures Replayable(history + [AssistantTurn(text, calls)] + [ResultsTurn(results)], codec, paired)
  {
    AssistantTurnTranslates(text, calls, codec);
    assert |Uses(calls)| == |Answers(results)|;
    ResultsTurnTranslates(results, codec);
    RoundChat(history, AssistantTurn(text, calls), ResultsTurn(results), codec);
    RoundEntriesPaired(text, calls, results, codec);
    if paired {
      PairedConcat(ChatOfAll(history, codec).value, [CallsEntryOf(text, calls, codec)] + Results(Answers(results)));
    }
  }

  // ----- the whole run -----

  ghost predicate SentReplayable(engine: seq<EngineCall>, codec: Codec, paired: bool) {
    forall i :: 0 <= i < |engine| && engine[i].AskProvider? ==> Replayable(engine[i].messages, codec, paired)
  }

  lemma {:induction false} CallsSendNothing(
      config: Config, world: World, s: State, calls: seq<ToolCall>, iteration: nat, codec: Codec, paired: bool)
    requires SentReplayable(s.engine, codec, paired)
    ensures SentReplayable(AfterCalls(config, world, s, calls, iteration).engine, codec, paired)
  {
    if calls != [] {
      CallsSendNothing(config, world, s, calls[..|calls| - 1], iteration, codec, paired);
    }
  }

  lemma RoundSends(config: Config, world: World, s: State, rounds: nat, codec: Codec, paired: bool)
    requires Replayable(s.history, codec, paired) && SentReplayable(s.engine, codec, paired)
    ensures SentReplayable(RunRound(config, world, s, rounds).state.engine, codec, paired)
  {
    var reply := world.reply(rounds);
    var asked := s.(engine := s.engine + [AskProvider(s.history, config.tools)]);
    if reply.success && reply.payload.Some? && ReplyCalls(reply.payload.value) != [] {
      var text, calls := ReplyText(reply.payload.value), ReplyCalls(reply.payload.value);
      CallsSendNothing(config, world, asked.(history := asked.history + [AssistantTurn(text, calls)]), calls, rounds + 1, codec, paired);
    }
  }

  lemma ContinueReplays(config: Config, world: World, s: State, rounds: nat, codec: Codec, paired: bool)
    requires Replayable(s.history, codec, paired) && RunRound(config, world, s, rounds).Continue?
    ensures Replayable(RunRound(config, world, s, rounds).state.history, codec, paired)
  {
    var text, calls, added := ContinueAdds(config, world, s, rounds);
    RoundReplays(s.history, text, calls, AnswersOf(added), codec, paired);
  }

  /** A run that answers with no text leaves behind a turn that cannot be sent again. */
  ghost predicate AnsweredWithNothing(result: LoopResult) {
    result.success && result.text == Some("")
  }

  lemma {:induction false} StopReplays(config: Config, world: World, s: State, rounds: nat, codec: Codec, paired: bool)
    requires Replayable(s.history, codec, paired) && RunRound(config, world, s, rounds).Stop?
    ensures var result := RunRound(config, world, s, rounds).result;
      if AnsweredWithNothing(result) then ChatOfAll(result.messages, codec).Err? else Replayable(result.messages, codec, paired)
  {
    var reply := world.reply(rounds);
    if reply.success && reply.payload.Some? {
      var text := ReplyText(reply.payload.value);
      ChatOfAllSnoc(s.history, AssistantTurn(text, []), codec);
      AssistantTurnTranslates(text, [], codec);
      if text != "" && paired {
        PairedConcat(ChatOfAll(s.history, codec).value, [Entry(Assistant, text)]);
      }
    }
  }

  lemma {:induction false} RunReplays(config: Config, world: World, s: State, rounds: nat, codec: Codec, paired: bool)
    requires rounds <= config.maxIterations && Replayable(s.history, codec, paired) && SentReplayable(s.engine, codec, paired)
    ensures var (result, t) := RunLoop(config, world, s, rounds);
      && SentReplayable(t.engine, codec, paired)
      && if AnsweredWithNothing(result) then ChatOfAll(result.messages, codec).Err? else Replayable(result.messages, codec, paired)
    decreases config.maxIterations - rounds
  {
    if rounds < config.maxIterations {
      RoundSends(config, world, s, rounds, codec, paired);
      if RunRound(config, world, s, rounds).Continue? {
        ContinueReplays(config, world, s, rounds, codec, paired);
        RunReplays(config, world, RunRound(config, world, s, rounds).state, rounds + 1, codec, paired);
      } else {
        StopReplays(config, world, s, rounds, codec, paired);
      }
    }
  }

  /** If the caller's messages translate, so does every history the loop sends, whatever the replies;
      if their calls are paired on the wire, so are those of every history sent; and the history
      returned translates exactly when the run did not end in an answer with neither text nor calls. */
  lemma {:induction false} EveryHistorySentReplays(config: Config, world: World, messages: seq<Message>, codec: Codec)
    requires ChatOfAll(messages, codec).Ok?
    ensures var (result, t) := RunLoop(config, world, State(messages, [], [], []), 0);
      && SentReplayable(t.engine, codec, ChatPaired(ChatOfAll(messages, codec).value))
      && (ChatOfAll(result.messages, codec).Ok? <==> !AnsweredWithNothing(result))
      && (!AnsweredWithNothing(result) ==>
            Replayable(result.messages, codec, ChatPaired(ChatOfAll(messages, codec).value)))
  {
    RunReplays(config, world, State(messages, [], [], []), 0, codec, ChatPaired(ChatOfAll(messages, codec).value));
  }
}
