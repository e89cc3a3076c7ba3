/** What every run of the tool loop keeps: pairing, conservation, the bound, and acceptance. */
module ToolLoopTheorems {
  import opened Kernel
  import opened ToolCalling
  import opened ToolLoop

  // ----- reading calls and answers back out of a history -----

  ghost function UseBlocks(blocks: seq<Block>): seq<Block> {
    if blocks == [] then [] else (if blocks[0].ToolUse? then [blocks[0]] else []) + UseBlocks(blocks[1..])
  }

  ghost function ResultBlocks(blocks: seq<Block>): seq<Block> {
    if blocks == [] then [] else (if blocks[0].ToolResult? then [blocks[0]] else []) + ResultBlocks(blocks[1..])
  }

  ghost function UsesIn(message: Message): seq<Block> {
    if message.Message? && message.content.Blocks? then UseBlocks(message.content.blocks) else []
  }

  ghost function ResultsIn(message: Message): seq<Block> {
    if message.Message? && message.content.Blocks? then ResultBlocks(message.content.blocks) else []
  }

  /** The calls, and the answers, of the turns from position `from` on. */
  ghost function AllUses(messages: seq<Message>, from: nat): seq<Block> {
    if |messages| <= from then []
    else AllUses(messages[..|messages| - 1], from) + UsesIn(messages[|messages| - 1])
  }

  ghost function AllResults(messages: seq<Message>, from: nat): seq<Block> {
    if |messages| <= from then []
    else AllResults(messages[..|messages| - 1], from) + ResultsIn(messages[|messages| - 1])
  }

  function CallsOf(records: seq<Record>): (calls: seq<ToolCall>)
    ensures |calls| == |records|
  {
    seq(|records|, i requires 0 <= i < |records| => records[i].call)
  }

  lemma {:induction false} UsesAreUses(calls: seq<ToolCall>)
    ensures UseBlocks(Uses(calls)) == Uses(calls) && ResultBlocks(Uses(calls)) == []
  {
    if calls != [] {
      UsesAreUses(calls[1..]);
      assert Uses(calls)[1..] == Uses(calls[1..]);
    }
  }

  lemma {:induction false} AnswersAreResults(results: seq<ResultBlock>)
    ensures ResultBlocks(Answers(results)) == Answers(results) && UseBlocks(Answers(results)) == []
  {
    if results != [] {
      AnswersAreResults(results[1..]);
      assert Answers(results)[1..] == Answers(results[1..]);
    }
  }

  lemma TurnContents(text: string, calls: seq<ToolCall>, results: seq<ResultBlock>)
    ensures UsesIn(AssistantTurn(text, calls)) == Uses(calls) && ResultsIn(AssistantTurn(text, calls)) == []
    ensures UsesIn(ResultsTurn(results)) == [] && ResultsIn(ResultsTurn(results)) == Answers(results)
  {
    UsesAreUses(calls);
    AnswersAreResults(results);
    var blocks := AssistantTurn(text, calls).content.blocks;
    if text == "" {
      assert blocks == Uses(calls);
    } else {
      assert blocks[1..] == Uses(calls);
    }
  }

  /** The i-th result block answers the i-th call: the ids agree position by position. */
  ghost predicate Answered(uses: seq<Block>, results: seq<Block>) {
    && |uses| == |results|
    && (forall i :: 0 <= i < |uses| ==> uses[i].ToolUse?)
    && (forall i :: 0 <= i < |results| ==> results[i].ToolResult?)
    && (forall i :: 0 <= i < |uses| ==> uses[i].id == results[i].toolCallId)
  }

  /** From position `from` on, a turn with calls is followed at once by a user turn that answers
      exactly them, and answers appear nowhere else. */
  ghost predicate WellPaired(messages: seq<Message>, from: nat) {
    && (forall i :: from <= i < |messages| && UsesIn(messages[i]) != [] ==>
          && i + 1 < |messages|
          && messages[i + 1].Message? && messages[i + 1].role == User
          && Answered(UsesIn(messages[i]), ResultsIn(messages[i + 1])))
    && (forall i :: from <= i < |messages| && ResultsIn(messages[i]) != [] ==>
          from < i && Answered(UsesIn(messages[i - 1]), ResultsIn(messages[i])))
  }

  lemma AppendRound(messages: seq<Message>, from: nat, turn: Message, answers: Message)
    requires from <= |messages| && WellPaired(messages, from)
    requires ResultsIn(turn) == [] && UsesIn(answers) == []
    requires answers.Message? && answers.role == User && Answered(UsesIn(turn), ResultsIn(answers))
    ensures WellPaired(messages + [turn, answers], from)
  {
    var all := messages + [turn, answers];
    forall i | from <= i < |all| && UsesIn(all[i]) != []
      ensures i + 1 < |all| && all[i + 1].Message? && all[i + 1].role == User
      ensures Answered(UsesIn(all[i]), ResultsIn(all[i + 1]))
    {
      if i < |messages| {
        assert all[i] == messages[i];
      }
    }
    forall i | from <= i < |all| && ResultsIn(all[i]) != []
      ensures from < i && Answered(UsesIn(all[i - 1]), ResultsIn(all[i]))
    {
      if i < |messages| {
        assert all[i] == messages[i];
      }
    }
  }

  lemma AppendPlainTurn(messages: seq<Message>, from: nat, turn: Message)
    requires from <= |messages| && WellPaired(messages, from)
    requires UsesIn(turn) == [] && ResultsIn(turn) == []
    ensures WellPaired(messages + [turn], from)
  {
    var all := messages + [turn];
    forall i | from <= i < |all| && (UsesIn(all[i]) != [] || ResultsIn(all[i]) != [])
      ensures i < |messages| && all[i] == messages[i]
    {
    }
  }

  // ----- records, events and engine calls -----

  ghost function ToolRuns(engine: seq<EngineCall>): seq<ToolCall> {
    if engine == [] then []
    else
      ToolRuns(engine[..|engine| - 1])
        + (if engine[|engine| - 1].RunTool? then [engine[|engine| - 1].call] else [])
  }

  ghost function Asks(engine: seq<EngineCall>): nat {
    if engine == [] then 0
    else Asks(engine[..|engine| - 1]) + (if engine[|engine| - 1].AskProvider? then 1 else 0)
  }

  ghost function Executed(records: seq<Record>): seq<ToolCall> {
    if records == [] then []
    else
      Executed(records[..|records| - 1])
        + (if records[|records| - 1].executed then [records[|records| - 1].call] else [])
  }

  /** Every record is what its call deserves; the events list the same calls, each request closed by
      its own completion or refusal; the engine ran exactly the executed ones, in order. */
  ghost predicate Booked(config: Config, world: World, s: State) {
    && (forall i :: 0 <= i < |s.records| ==> s.records[i] == Handled(config, world, i, s.records[i].call))
    && |s.events| == 2 * |s.records|
    && (forall i :: 0 <= i < |s.records| ==> EventsAt(s.events, i, s.records[i]))
    && ToolRuns(s.engine) == Executed(s.records)
  }

  ghost predicate OnOffer(tools: seq<ToolSpec>, name: string) {
    exists k :: 0 <= k < |tools| && tools[k].name == name
  }

  /** The text given, or the one that stands for a missing or empty one. */
  ghost predicate Says(text: Option<string>, given: Option<string>, fallback: string) {
    if given.None? || |given.value| == 0 then text == Some(fallback) else text == given
  }

  /** What a record says about its call, the `i`-th handled: it reached the engine exactly when its
      name was offered and the hook allowed it, it succeeded exactly when the engine said so, and its
      text is the rendered payload, or the engine's error, or the hook's reason, or the fixed text that
      stands for a missing one. */
  ghost predicate TellsWhatHappened(config: Config, world: World, i: nat, record: Record) {
    && (record.executed <==> OnOffer(config.tools, record.call.name) && world.hook(i).allowed)
    && (record.success <==> record.executed && world.tool(i).success)
    && (record.success ==>
          record.result == if world.tool(i).payload.Some? then world.render(world.tool(i).payload.value) else "")
    && (record.executed && !record.success ==>
          Says(Some(record.result), world.tool(i).error, "Tool execution failed."))
    && (!record.executed && OnOffer(config.tools, record.call.name) ==>
          Says(Some(record.result), world.hook(i).reason, "Tool call declined."))
    && (!OnOffer(config.tools, record.call.name) ==>
          record.result == "Tool is not in the offered set.")
    && Answer(record).toolCallId == record.call.id && Answer(record).content == record.result
    && (Answer(record).isError <==> !record.success)
  }

  lemma BookedTells(config: Config, world: World, s: State)
    requires Booked(config, world, s)
    ensures forall i :: 0 <= i < |s.records| ==> TellsWhatHappened(config, world, i, s.records[i])
  {
    forall i | 0 <= i < |s.records|
      ensures TellsWhatHappened(config, world, i, s.records[i])
    {
      HandledTells(config, world, i, s.records[i].call);
    }
  }

  lemma HandledTells(config: Config, world: World, i: nat, call: ToolCall)
    ensures TellsWhatHappened(config, world, i, Handled(config, world, i, call))
  {
  }

  ghost predicate EventsAt(events: seq<Event>, i: nat, record: Record) {
    && 2 * i + 1 < |events|
    && events[2 * i].Requested? && events[2 * i].callId == record.call.id && events[2 * i].toolId == record.call.name
    && events[2 * i + 1] == Closing(record)
  }

  lemma AfterCallEvents(s: seq<Record>, events: seq<Event>, record: Record, iteration: nat, i: nat)
    requires |events| == 2 * |s| && i <= |s| && (i < |s| ==> EventsAt(events, i, s[i]))
    ensures EventsAt(events + [Opening(record, iteration), Closing(record)], i, (s + [record])[i])
  {
  }

  lemma {:induction false} EngineSnoc(engine: seq<EngineCall>, last: EngineCall)
    ensures ToolRuns(engine + [last]) == ToolRuns(engine) + (if last.RunTool? then [last.call] else [])
    ensures Asks(engine + [last]) == Asks(engine) + (if last.AskProvider? then 1 else 0)
  {
    assert (engine + [last])[..|engine|] == engine;
  }

  lemma {:induction false} ExecutedSnoc(records: seq<Record>, last: Record)
    ensures Executed(records + [last]) == Executed(records) + (if last.executed then [last.call] else [])
  {
    assert (records + [last])[..|records|] == records;
  }

  lemma AfterCallRuns(config: Config, world: World, s: State, call: ToolCall, iteration: nat)
    requires ToolRuns(s.engine) == Executed(s.records)
    ensures var t := AfterCall(config, world, s, call, iteration);
      ToolRuns(t.engine) == Executed(t.records) && Asks(t.engine) == Asks(s.engine)
  {
    var record := Handled(config, world, |s.records|, call);
    ExecutedSnoc(s.records, record);
    if record.executed {
      EngineSnoc(s.engine, RunTool(call));
      assert record.call == call;
    } else {
      assert Executed(s.records) + [] == Executed(s.records);
    }
  }

  lemma AfterCallBooked(config: Config, world: World, s: State, call: ToolCall, iteration: nat)
    requires Booked(config, world, s)
    ensures Booked(config, world, AfterCall(config, world, s, call, iteration))
    ensures Asks(AfterCall(config, world, s, call, iteration).engine) == Asks(s.engine)
  {
    var t := AfterCall(config, world, s, call, iteration);
    AfterCallRuns(config, world, s, call, iteration);
    forall i | 0 <= i < |t.records|
      ensures EventsAt(t.events, i, t.records[i])
    {
      AfterCallEvents(s.records, s.events, Handled(config, world, |s.records|, call), iteration, i);
    }
  }

  lemma {:induction false} AfterCallsBooked(
      config: Config, world: World, s: State, calls: seq<ToolCall>, iteration: nat)
    requires Booked(config, world, s)
    ensures Booked(config, world, AfterCalls(config, world, s, calls, iteration))
    ensures Asks(AfterCalls(config, world, s, calls, iteration).engine) == Asks(s.engine)
  {
    if calls != [] {
      AfterCallsBooked(config, world, s, calls[..|calls| - 1], iteration);
      AfterCallBooked(config, world, AfterCalls(config, world, s, calls[..|calls| - 1], iteration),
                      calls[|calls| - 1], iteration);
    }
  }

  // ----- what holds between rounds -----

  /** The turns the loop added hold exactly the recorded calls and their answers, in order. */
  ghost predicate Conserved(messages: seq<Message>, s: State) {
    && messages <= s.history
    && AllUses(s.history, |messages|) == Uses(CallsOf(s.records))
    && AllResults(s.history, |messages|) == Answers(AnswersOf(s.records))
  }

  ghost predicate RoundInv(config: Config, world: World, messages: seq<Message>, s: State, rounds: nat) {
    && Booked(config, world, s)
    && Asks(s.engine) == rounds
    && Conserved(messages, s)
    && WellPaired(s.history, |messages|)
  }

  lemma {:induction false} AddTurn(history: seq<Message>, t: seq<Message>, from: nat, turn: Message)
    requires from <= |history| && t == history + [turn]
    ensures AllUses(t, from) == AllUses(history, from) + UsesIn(turn)
    ensures AllResults(t, from) == AllResults(history, from) + ResultsIn(turn)
  {
    assert t[..|t| - 1] == history;
  }

  lemma RecordsAppend(before: seq<Record>, added: seq<Record>)
    ensures Uses(CallsOf(before + added)) == Uses(CallsOf(before)) + Uses(CallsOf(added))
    ensures Answers(AnswersOf(before + added)) == Answers(AnswersOf(before)) + Answers(AnswersOf(added))
  {
  }

  lemma AddedMatch(config: Config, world: World, n: nat, calls: seq<ToolCall>, added: seq<Record>)
    requires |added| == |calls| && forall i :: 0 <= i < |calls| ==> added[i] == Handled(config, world, n + i, calls[i])
    ensures CallsOf(added) == calls
    ensures Answered(Uses(calls), Answers(AnswersOf(added)))
  {
    forall i | 0 <= i < |calls|
      ensures added[i].call == calls[i]
    {
      assert added[i] == Handled(config, world, n + i, calls[i]);
    }
  }

  lemma AskBooked(config: Config, world: World, s: State, history: seq<Message>)
    requires Booked(config, world, s)
    ensures Booked(config, world, State(history, s.records, s.events, s.engine + [AskProvider(s.history, config.tools)]))
    ensures Asks(s.engine + [AskProvider(s.history, config.tools)]) == Asks(s.engine) + 1
  {
    assert (s.engine + [AskProvider(s.history, config.tools)])[..|s.engine|] == s.engine;
  }

  lemma HistoryIsFree(config: Config, world: World, s: State, history: seq<Message>)
    requires Booked(config, world, s)
    ensures Booked(config, world, s.(history := history))
  {
  }

  lemma ContinueBooked(config: Config, world: World, s: State, rounds: nat)
    requires Booked(config, world, s) && RunRound(config, world, s, rounds).Continue?
    ensures Booked(config, world, RunRound(config, world, s, rounds).state)
    ensures Asks(RunRound(config, world, s, rounds).state.engine) == Asks(s.engine) + 1
  {
    var payload := world.reply(rounds).payload.value;
    var text, calls := ReplyText(payload), ReplyCalls(payload);
    var history := s.history + [AssistantTurn(text, calls)];
    var answered := State(history, s.records, s.events, s.engine + [AskProvider(s.history, config.tools)]);
    AskBooked(config, world, s, history);
    AfterCallsBooked(config, world, answered, calls, rounds + 1);
    HistoryIsFree(config, world, AfterCalls(config, world, answered, calls, rounds + 1),
                  RunRound(config, world, s, rounds).state.history);
  }

  lemma {:induction false} RecordsGrow(
      config: Config, world: World, s: State, calls: seq<ToolCall>, iteration: nat, records: seq<Record>)
    requires records == AfterCalls(config, world, s, calls, iteration).records
    ensures |records| == |s.records| + |calls| && records == s.records + records[|s.records|..]
  {
    AfterCallsGrows(config, world, s, calls, iteration);
    assert records == records[..|s.records|] + records[|s.records|..];
  }

  lemma {:induction false} HandledAt(
      config: Config, world: World, s: State, calls: seq<ToolCall>, iteration: nat, records: seq<Record>, i: nat)
    requires records == AfterCalls(config, world, s, calls, iteration).records && i < |calls|
    ensures |s.records| + i < |records| && records[|s.records| + i] == Handled(config, world, |s.records| + i, calls[i])
  {
    AfterCallsGrows(config, world, s, calls, iteration);
  }

  /** Handling a turn's calls adds one record per call, whose answers match the calls. */
  lemma {:induction false} CallsAdd(
      config: Config, world: World, s: State, calls: seq<ToolCall>, iteration: nat, records: seq<Record>)
    requires records == AfterCalls(config, world, s, calls, iteration).records
    ensures |s.records| <= |records| && records == s.records + records[|s.records|..]
    ensures CallsOf(records[|s.records|..]) == calls
    ensures Answered(Uses(calls), Answers(AnswersOf(records[|s.records|..])))
  {
    RecordsGrow(config, world, s, calls, iteration, records);
    var n, added := |s.records|, records[|s.records|..];
    forall i | 0 <= i < |calls|
      ensures added[i] == Handled(config, world, n + i, calls[i])
    {
      HandledAt(config, world, s, calls, iteration, records, i);
      assert added[i] == records[n + i];
    }
    AddedMatch(config, world, n, calls, added);
  }

  /** A round that continues, as the handling of its calls. */
  lemma RoundIs(config: Config, world: World, s: State, rounds: nat)
    returns (text: string, calls: seq<ToolCall>, answered: State)
    requires RunRound(config, world, s, rounds).Continue?
    ensures answered.records == s.records && calls != []
    ensures var t := RunRound(config, world, s, rounds).state;
      && t.records == AfterCalls(config, world, answered, calls, rounds + 1).records && |s.records| <= |t.records|
      && t.history == s.history + [AssistantTurn(text, calls)] + [ResultsTurn(AnswersOf(t.records[|s.records|..]))]
  {
    text, calls := ReplyText(world.reply(rounds).payload.value), ReplyCalls(world.reply(rounds).payload.value);
    answered := State(s.history + [AssistantTurn(text, calls)], s.records, s.events, s.engine + [AskProvider(s.history, config.tools)]);
    AfterCallsGrows(config, world, answered, calls, rounds + 1);
  }

  /** A round that continues adds two turns: the calls, and their answers, which match them position
      by position. */
  lemma ContinueAdds(config: Config, world: World, s: State, rounds: nat)
    returns (text: string, calls: seq<ToolCall>, added: seq<Record>)
    requires RunRound(config, world, s, rounds).Continue?
    ensures RunRound(config, world, s, rounds).state.records == s.records + added
    ensures RunRound(config, world, s, rounds).state.history
         == s.history + [AssistantTurn(text, calls)] + [ResultsTurn(AnswersOf(added))]
    ensures calls != [] && CallsOf(added) == calls && Answered(Uses(calls), Answers(AnswersOf(added)))
  {
    var answered;
    text, calls, answered := RoundIs(config, world, s, rounds);
    var records := RunRound(config, world, s, rounds).state.records;
    CallsAdd(config, world, answered, calls, rounds + 1, records);
    added := records[|s.records|..];
  }

  lemma {:induction false} TwoTurnsRead(
      history: seq<Message>, mid: seq<Message>, t: seq<Message>, from: nat, turn: Message, answers: Message)
    requires from <= |history| && mid == history + [turn] && t == mid + [answers]
    requires UsesIn(answers) == [] && ResultsIn(turn) == []
    ensures AllUses(t, from) == AllUses(history, from) + UsesIn(turn)
    ensures AllResults(t, from) == AllResults(history, from) + ResultsIn(answers)
  {
    AddTurn(history, mid, from, turn);
    AddTurn(mid, t, from, answers);
    assert AllUses(mid, from) + [] == AllUses(mid, from);
    assert AllResults(history, from) + [] == AllResults(history, from);
  }

  lemma TwoTurnsConserved(
      messages: seq<Message>, s: State, t: State, text: string, calls: seq<ToolCall>, added: seq<Record>)
    requires Conserved(messages, s)
    requires t.records == s.records + added
    requires t.history == s.history + [AssistantTurn(text, calls)] + [ResultsTurn(AnswersOf(added))]
    requires CallsOf(added) == calls
    ensures Conserved(messages, t)
  {
    RecordsAppend(s.records, added);
    TurnContents(text, calls, AnswersOf(added));
    TwoTurnsRead(s.history, s.history + [AssistantTurn(text, calls)], t.history, |messages|,
                 AssistantTurn(text, calls), ResultsTurn(AnswersOf(added)));
  }

  lemma TwoTurnsPaired(history: seq<Message>, from: nat, text: string, calls: seq<ToolCall>, results: seq<ResultBlock>)
    requires from <= |history| && WellPaired(history, from)
    requires Answered(Uses(calls), Answers(results))
    ensures WellPaired(history + [AssistantTurn(text, calls)] + [ResultsTurn(results)], from)
  {
    TurnContents(text, calls, results);
    AppendRound(history, from, AssistantTurn(text, calls), ResultsTurn(results));
    assert history + [AssistantTurn(text, calls)] + [ResultsTurn(results)]
        == history + [AssistantTurn(text, calls), ResultsTurn(results)];
  }

  lemma ContinueConserved(config: Config, world: World, messages: seq<Message>, s: State, rounds: nat)
    requires Conserved(messages, s) && WellPaired(s.history, |messages|)
    requires RunRound(config, world, s, rounds).Continue?
    ensures Conserved(messages, RunRound(config, world, s, rounds).state)
    ensures WellPaired(RunRound(config, world, s, rounds).state.history, |messages|)
  {
    var text, calls, added := ContinueAdds(config, world, s, rounds);
    TwoTurnsConserved(messages, s, RunRound(config, world, s, rounds).state, text, calls, added);
    TwoTurnsPaired(s.history, |messages|, text, calls, AnswersOf(added));
  }

  /** A round that continues keeps everything, one provider call later. */
  lemma ContinueKeeps(config: Config, world: World, messages: seq<Message>, s: State, rounds: nat)
    requires RoundInv(config, world, messages, s, rounds)
    requires RunRound(config, world, s, rounds).Continue?
    ensures RoundInv(config, world, messages, RunRound(config, world, s, rounds).state, rounds + 1)
  {
    ContinueBooked(config, world, s, rounds);
    ContinueConserved(config, world, messages, s, rounds);
  }

  /** How a run may end. */
  ghost predicate EndsAs(config: Config, messages: seq<Message>, result: LoopResult, t: State) {
    && result.toolCalls == t.records && result.messages == t.history
    && Asks(t.engine) == result.iterations <= config.maxIterations
    && (result.success <==> result.text.Some?)
    && (result.success ==> !result.exhausted && result.error.None?)
    && (!result.success ==> result.error.Some?)
    && (result.exhausted ==> result.iterations == config.maxIterations)
  }

  lemma LastTurnConserved(messages: seq<Message>, s: State, t: State, text: string)
    requires Conserved(messages, s) && WellPaired(s.history, |messages|)
    requires t.records == s.records && t.history == s.history + [AssistantTurn(text, [])]
    ensures Conserved(messages, t) && WellPaired(t.history, |messages|)
  {
    TurnContents(text, [], []);
    AddTurn(s.history, t.history, |messages|, AssistantTurn(text, []));
    AppendPlainTurn(s.history, |messages|, AssistantTurn(text, []));
  }

  lemma StopKeeps(config: Config, world: World, messages: seq<Message>, s: State, rounds: nat)
    requires rounds < config.maxIterations && RoundInv(config, world, messages, s, rounds)
    requires RunRound(config, world, s, rounds).Stop?
    ensures var stop := RunRound(config, world, s, rounds);
      && RoundInv(config, world, messages, stop.state, rounds + 1)
      && EndsAs(config, messages, stop.result, stop.state)
      && stop.result.iterations == rounds + 1 && !stop.result.exhausted
  {
    var t := RunRound(config, world, s, rounds).state;
    AskBooked(config, world, s, t.history);
    assert t == State(t.history, s.records, s.events, s.engine + [AskProvider(s.history, config.tools)]);
    var reply := world.reply(rounds);
    if reply.success && reply.payload.Some? {
      LastTurnConserved(messages, s, t, ReplyText(reply.payload.value));
    }
  }

  lemma {:induction false} RunLoopKeeps(config: Config, world: World, messages: seq<Message>, s: State, rounds: nat)
    requires rounds <= config.maxIterations && RoundInv(config, world, messages, s, rounds)
    ensures var (result, t) := RunLoop(config, world, s, rounds);
      RoundInv(config, world, messages, t, result.iterations) && EndsAs(config, messages, result, t)
    decreases config.maxIterations - rounds
  {
    if rounds < config.maxIterations {
      if RunRound(config, world, s, rounds).Continue? {
        ContinueKeeps(config, world, messages, s, rounds);
        RunLoopKeeps(config, world, messages, RunRound(config, world, s, rounds).state, rounds + 1);
      } else {
        StopKeeps(config, world, messages, s, rounds);
      }
    }
  }

  lemma StartInv(config: Config, world: World, messages: seq<Message>)
    ensures RoundInv(config, world, messages, State(messages, [], [], []), 0)
  {
  }

  /** For every provider, hook and engine: the run answers, fails or exhausts its budget, in as many
      provider calls as it reports and never more than the bound; the history it returns extends the
      caller's with well paired turns; and records, events, engine calls and result blocks are the
      same calls in the same order. */
  lemma {:induction false} LoopIsSound(config: Config, world: World, messages: seq<Message>)
    ensures var (result, t) := RunLoop(config, world, State(messages, [], [], []), 0);
      && EndsAs(config, messages, result, t)
      && WellPaired(result.messages, |messages|)
      && Conserved(messages, t)
      && Booked(config, world, t)
      && (forall i :: 0 <= i < |t.records| ==> TellsWhatHappened(config, world, i, t.records[i]))
      && (1 <= config.maxIterations ==> 1 <= result.iterations)
  {
    StartInv(config, world, messages);
    RunLoopKeeps(config, world, messages, State(messages, [], [], []), 0);
    BookedTells(config, world, RunLoop(config, world, State(messages, [], [], []), 0).1);
    if 1 <= config.maxIterations {
      RunsAtLeastOnce(config, world, State(messages, [], [], []), 0);
    }
  }

  lemma {:induction false} RunsAtLeastOnce(config: Config, world: World, s: State, rounds: nat)
    requires rounds < config.maxIterations
    ensures rounds < RunLoop(config, world, s, rounds).0.iterations
    decreases config.maxIterations - rounds
  {
    var round := RunRound(config, world, s, rounds);
    if round.Continue? && rounds + 1 < config.maxIterations {
      RunsAtLeastOnce(config, world, round.state, rounds + 1);
    }
  }

  // ----- which way a run ends -----

  /** The reply of round `r` asks for tools, so the loop goes on. */
  ghost predicate GoesOn(world: World, r: nat) {
    world.reply(r).success && world.reply(r).payload.Some? && ReplyCalls(world.reply(r).payload.value) != []
  }

  /** The first reply that ends the loop, or the bound. */
  ghost predicate DecidedBy(config: Config, world: World, from: nat, n: nat) {
    && from <= n <= config.maxIterations
    && (forall r :: from <= r < n ==> GoesOn(world, r))
    && (n < config.maxIterations ==> !GoesOn(world, n))
  }

  lemma SomethingDecides(config: Config, world: World) returns (n: nat)
    ensures DecidedBy(config, world, 0, n)
  {
    n := 0;
    while n < config.maxIterations && GoesOn(world, n)
      invariant n <= config.maxIterations && forall r :: 0 <= r < n ==> GoesOn(world, r)
    {
      n := n + 1;
    }
  }

  lemma {:induction false} EndsWithReply(config: Config, world: World, s: State, rounds: nat, n: nat)
    requires DecidedBy(config, world, rounds, n)
    ensures var result := RunLoop(config, world, s, rounds).0;
      && (result.exhausted <==> n == config.maxIterations)
      && result.iterations == (if n < config.maxIterations then n + 1 else n)
      && (result.success <==> n < config.maxIterations && world.reply(n).success && world.reply(n).payload.Some?)
      && (result.success ==> result.text == Some(ReplyText(world.reply(n).payload.value)))
    decreases config.maxIterations - rounds
  {
    if rounds < config.maxIterations {
      var round := RunRound(config, world, s, rounds);
      assert round.Continue? <==> GoesOn(world, rounds);
      if round.Continue? {
        EndsWithReply(config, world, round.state, rounds + 1, n);
      }
    }
  }

  lemma StopSaysWhy(config: Config, world: World, s: State, r: nat, result: LoopResult, t: State)
    requires RunRound(config, world, s, r) == Stop(result, t)
    ensures !result.success ==> Says(result.error, world.reply(r).error, "Provider returned no payload.")
  {
  }

  lemma {:induction false} FailureSaysWhy(config: Config, world: World, s: State, rounds: nat, n: nat)
    requires DecidedBy(config, world, rounds, n)
    ensures var result := RunLoop(config, world, s, rounds).0;
      && (!result.success && n < config.maxIterations ==>
            Says(result.error, world.reply(n).error, "Provider returned no payload."))
      && (n == config.maxIterations ==> result.error == Some("Tool loop stopped without a final answer."))
    decreases config.maxIterations - rounds
  {
    if rounds < config.maxIterations {
      var round := RunRound(config, world, s, rounds);
      assert round.Continue? <==> GoesOn(world, rounds);
      if round.Continue? {
        FailureSaysWhy(config, world, round.state, rounds + 1, n);
      } else {
        StopSaysWhy(config, world, s, rounds, round.result, round.state);
      }
    }
  }

  /** A run is exhausted exactly when every reply up to the bound asks for tools. Otherwise the first
      reply that does not decides it: answered with its text if it succeeded with a payload, failed with
      its error if not; and no later reply is asked for. */
  lemma EndingIsDecided(config: Config, world: World, messages: seq<Message>) returns (n: nat)
    ensures DecidedBy(config, world, 0, n)
    ensures var result := RunLoop(config, world, State(messages, [], [], []), 0).0;
      && (result.exhausted <==> forall r :: 0 <= r < config.maxIterations ==> GoesOn(world, r))
      && (!result.exhausted ==>
            && n < config.maxIterations && result.iterations == n + 1
            && (result.success <==> world.reply(n).success && world.reply(n).payload.Some?)
            && (result.success ==> result.text == Some(ReplyText(world.reply(n).payload.value)))
            && (!result.success ==> Says(result.error, world.reply(n).error, "Provider returned no payload.")))
      && (result.exhausted ==> result.error == Some("Tool loop stopped without a final answer."))
  {
    n := SomethingDecides(config, world);
    EndsWithReply(config, world, State(messages, [], [], []), 0, n);
    FailureSaysWhy(config, world, State(messages, [], [], []), 0, n);
  }
}
