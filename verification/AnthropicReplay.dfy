/** Every history the tool loop sends can be translated again to the Anthropic shape. */
module AnthropicReplay {
  import opened ToolCalling
  import opened ToolLoop
  import opened ToolLoopTheorems
  import opened ToolLoopReplay
  import opened ChatCompletions
  import opened WireTranslations

  ghost predicate AllTranslate(messages: seq<Message>) {
    forall i :: 0 <= i < |messages| ==> ToAnthropic(messages[i]).Ok?
  }

  /** An assistant turn is refused exactly when it has neither text nor calls. */
  lemma AssistantTurnAccepted(text: string, calls: seq<ToolCall>)
    ensures ToAnthropic(AssistantTurn(text, calls)).Ok? <==> text != "" || calls != []
  {
    var blocks := AssistantTurn(text, calls).content.blocks;
    assert Supported(blocks);
    SupportedTranslates(blocks);
  }

  lemma ResultsTurnAccepted(results: seq<ResultBlock>)
    ensures ToAnthropic(ResultsTurn(results)).Ok? <==> results != []
  {
    assert Supported(Answers(results));
    SupportedTranslates(Answers(results));
  }

  ghost predicate SentTranslate(engine: seq<EngineCall>) {
    forall i :: 0 <= i < |engine| && engine[i].AskProvider? ==> AllTranslate(engine[i].messages)
  }

  lemma {:induction false} CallsSendNothingNew(
      config: Config, world: World, s: State, calls: seq<ToolCall>, iteration: nat)
    requires SentTranslate(s.engine)
    ensures SentTranslate(AfterCalls(config, world, s, calls, iteration).engine)
  {
    if calls != [] {
      CallsSendNothingNew(config, world, s, calls[..|calls| - 1], iteration);
    }
  }

  lemma RoundSendsTranslatable(config: Config, world: World, s: State, rounds: nat)
    requires AllTranslate(s.history) && SentTranslate(s.engine)
    ensures SentTranslate(RunRound(config, world, s, rounds).state.engine)
  {
    var reply := world.reply(rounds);
    var asked := s.(engine := s.engine + [AskProvider(s.history, config.tools)]);
    if reply.success && reply.payload.Some? && ReplyCalls(reply.payload.value) != [] {
      var text, calls := ReplyText(reply.payload.value), ReplyCalls(reply.payload.value);
      CallsSendNothingNew(config, world, asked.(history := asked.history + [AssistantTurn(text, calls)]), calls, rounds + 1);
    }
  }

  lemma ContinueTranslates(config: Config, world: World, s: State, rounds: nat)
    requires AllTranslate(s.history) && RunRound(config, world, s, rounds).Continue?
    ensures AllTranslate(RunRound(config, world, s, rounds).state.history)
  {
    var text, calls, added := ContinueAdds(config, world, s, rounds);
    AssistantTurnAccepted(text, calls);
    ResultsTurnAccepted(AnswersOf(added));
    assert |Uses(calls)| == |Answers(AnswersOf(added))|;
  }

  lemma StopTranslates(config: Config, world: World, s: State, rounds: nat)
    requires AllTranslate(s.history) && RunRound(config, world, s, rounds).Stop?
    ensures var result := RunRound(config, world, s, rounds).result;
      AllTranslate(result.messages) <==> !AnsweredWithNothing(result)
  {
    var reply := world.reply(rounds);
    if reply.success && reply.payload.Some? {
      var text := ReplyText(reply.payload.value);
      AssistantTurnAccepted(text, []);
      var messages := s.history + [AssistantTurn(text, [])];
      assert messages[|s.history|] == AssistantTurn(text, []);
    }
  }

  lemma {:induction false} RunTranslates(config: Config, world: World, s: State, rounds: nat)
    requires rounds <= config.maxIterations && AllTranslate(s.history) && SentTranslate(s.engine)
    ensures var (result, t) := RunLoop(config, world, s, rounds);
      && SentTranslate(t.engine)
      && (AllTranslate(result.messages) <==> !AnsweredWithNothing(result))
    decreases config.maxIterations - rounds
  {
    if rounds < config.maxIterations {
      RoundSendsTranslatable(config, world, s, rounds);
      if RunRound(config, world, s, rounds).Continue? {
        ContinueTranslates(config, world, s, rounds);
        RunTranslates(config, world, RunRound(config, world, s, rounds).state, rounds + 1);
      } else {
        StopTranslates(config, world, s, rounds);
      }
    }
  }

  /** If the caller's messages translate, so does every history the loop sends, whatever the replies;
      and the history returned translates exactly when the run did not end in an answer with neither
      text nor calls. */
  lemma {:induction false} EveryHistorySentTranslates(config: Config, world: World, messages: seq<Message>)
    requires AllTranslate(messages)
    ensures var (result, t) := RunLoop(config, world, State(messages, [], [], []), 0);
      && SentTranslate(t.engine)
      && (AllTranslate(result.messages) <==> !AnsweredWithNothing(result))
  {
    RunTranslates(config, world, State(messages, [], [], []), 0);
  }
}
