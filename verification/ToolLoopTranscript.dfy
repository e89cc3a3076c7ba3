/** What the provider is asked with and what is written down, round by round, in every run of the tool loop. */
module ToolLoopTranscript {
  import opened Kernel
  import opened ToolCalling
  import opened ToolLoop
  import opened ToolLoopTheorems
  import Json

  // ----- reading a reply -----

  predicate IsCall(entry: Option<ToolCall>) {
    entry.Some?
  }

  lemma {:induction false} PresentPositions(entries: seq<Option<ToolCall>>)
    ensures |Present(entries)| == |Positions(entries, IsCall)|
    ensures forall a :: 0 <= a < |Present(entries)| ==>
              var i := Positions(entries, IsCall)[a];
              i < |entries| && entries[i] == Some(Present(entries)[a])
  {
    if entries != [] {
      var front, last := entries[..|entries| - 1], entries[|entries| - 1];
      PresentPositions(front);
      PresentSnoc(front, last);
      assert entries == front + [last];
    }
  }

  /** A reply is read as its text, or as no text where that is not a string, and as those of its entries
      that are calls, in order, or as no calls where they are not a sequence. */
  lemma ReplyIsRead(payload: Payload) returns (p: seq<nat>)
    ensures payload.text.None? ==> ReplyText(payload) == ""
    ensures payload.text.Some? ==> payload.text == Some(ReplyText(payload))
    ensures payload.entries.None? ==> ReplyCalls(payload) == []
    ensures payload.entries.Some? ==>
              && Lists(p, payload.entries.value, IsCall)
              && |p| == |ReplyCalls(payload)|
              && forall a :: 0 <= a < |p| ==>
                   p[a] < |payload.entries.value| && payload.entries.value[p[a]] == Some(ReplyCalls(payload)[a])
  {
    p := [];
    if payload.entries.Some? {
      var entries := payload.entries.value;
      p := Positions(entries, IsCall);
      PositionsList(entries, IsCall);
      PresentPositions(entries);
    }
  }

  // ----- the rounds of a run, in terms of the replies -----

  ghost function TextOf(world: World, r: nat): string {
    if world.reply(r).payload.Some? then ReplyText(world.reply(r).payload.value) else ""
  }

  ghost function CallsAt(world: World, r: nat): seq<ToolCall> {
    if world.reply(r).payload.Some? then ReplyCalls(world.reply(r).payload.value) else []
  }

  /** How many calls the replies before round `r` asked for. */
  ghost function CallsBefore(world: World, r: nat): nat {
    if r == 0 then 0 else CallsBefore(world, r - 1) + |CallsAt(world, r - 1)|
  }

  /** What the provider was asked with, ask by ask. */
  ghost function Sent(engine: seq<EngineCall>): seq<EngineCall> {
    if engine == [] then []
    else
      Sent(engine[..|engine| - 1])
        + (if engine[|engine| - 1].AskProvider? then [engine[|engine| - 1]] else [])
  }

  /** An assistant turn with these calls: its text, if there is any, and then one block per call. */
  ghost predicate CarriesCalls(turn: Message, text: string, calls: seq<ToolCall>) {
    var lead := if text == "" then 0 else 1;
    && turn.Message? && turn.role == Assistant && turn.content.Blocks?
    && |turn.content.blocks| == lead + |calls|
    && (lead == 1 ==> turn.content.blocks[0] == TextBlock(text))
    && forall k :: 0 <= k < |calls| ==>
         turn.content.blocks[lead + k] == ToolUse(calls[k].id, calls[k].name, Json.Object(calls[k].arguments))
  }

  /** A user turn with one result per record: its call's id, its text, and whether it failed. */
  ghost predicate CarriesAnswers(turn: Message, records: seq<Record>) {
    && turn.Message? && turn.role == User && turn.content.Blocks?
    && |turn.content.blocks| == |records|
    && forall k :: 0 <= k < |records| ==>
         turn.content.blocks[k] == ToolResult(records[k].call.id, records[k].result, !records[k].success)
  }

  /** Record `k` handles this call of round `r`: it is announced with the number of the round, and then
      reported as completed or as refused. */
  ghost predicate Tells(records: seq<Record>, events: seq<Event>, k: nat, call: ToolCall, r: nat) {
    && k < |records| && 2 * k + 1 < |events|
    && records[k].call == call
    && events[2 * k] == Requested(call.id, call.name, r + 1)
    && events[2 * k + 1] == (if records[k].executed then Completed(call.id, call.name, records[k].success)
                             else Refused(call.id, call.name, records[k].result))
  }

  /** The records from `from` on handle these calls of round `r`, in order. */
  ghost predicate TellsAll(records: seq<Record>, events: seq<Event>, from: nat, calls: seq<ToolCall>, r: nat) {
    forall k: nat :: k < |calls| ==> Tells(records, events, from + k, calls[k], r)
  }

  /** What round `r` left behind: the turn with the reply's text and calls, the turn that answers them,
      and a record with two events for each. */
  ghost predicate RoundWritten(world: World, lead: nat, history: seq<Message>, records: seq<Record>, events: seq<Event>, r: nat) {
    var from, calls := CallsBefore(world, r), CallsAt(world, r);
    && lead + 2 * r + 1 < |history| && from + |calls| <= |records|
    && CarriesCalls(history[lead + 2 * r], TextOf(world, r), calls)
    && CarriesAnswers(history[lead + 2 * r + 1], records[from..from + |calls|])
    && TellsAll(records, events, from, calls, r)
  }

  /** Ask `q` was made with the first messages of the history: the caller's, and those of `q` rounds. */
  ghost predicate AskedWith(config: Config, lead: nat, s: State, q: nat) {
    && q < |Sent(s.engine)| && lead + 2 * q <= |s.history|
    && Sent(s.engine)[q] == AskProvider(s.history[..lead + 2 * q], config.tools)
  }

  ghost predicate AllAsked(config: Config, lead: nat, s: State, asks: nat) {
    forall q: nat :: q < asks ==> AskedWith(config, lead, s, q)
  }

  ghost predicate AllRounds(
      world: World, lead: nat, history: seq<Message>, records: seq<Record>, events: seq<Event>, rounds: nat)
  {
    forall r: nat :: r < rounds ==> RoundWritten(world, lead, history, records, events, r)
  }

  /** A state that `asks` asks and `rounds` whole rounds have led to. */
  ghost predicate Told(config: Config, world: World, messages: seq<Message>, s: State, rounds: nat, asks: nat) {
    && messages <= s.history
    && |s.records| == CallsBefore(world, rounds) && |s.events| == 2 * |s.records|
    && |Sent(s.engine)| == asks
    && AllAsked(config, |messages|, s, asks)
    && AllRounds(world, |messages|, s.history, s.records, s.events, rounds)
  }

  // ----- one call, one turn -----

  lemma {:induction false} SentSnoc(engine: seq<EngineCall>, last: EngineCall)
    ensures Sent(engine + [last]) == Sent(engine) + (if last.AskProvider? then [last] else [])
  {
    assert (engine + [last])[..|engine|] == engine;
  }

  lemma {:induction false} CallsAreTold(config: Config, world: World, s: State, calls: seq<ToolCall>, r: nat)
    requires |s.events| == 2 * |s.records|
    ensures var t := AfterCalls(config, world, s, calls, r + 1);
      && Sent(t.engine) == Sent(s.engine)
      && |t.records| == |s.records| + |calls| && |t.events| == 2 * |t.records|
      && s.records <= t.records && s.events <= t.events
      && TellsAll(t.records, t.events, |s.records|, calls, r)
  {
    if calls != [] {
      var front, last := calls[..|calls| - 1], calls[|calls| - 1];
      CallsAreTold(config, world, s, front, r);
      var mid := AfterCalls(config, world, s, front, r + 1);
      CallIsTold(config, world, mid, last, r);
      var t := AfterCall(config, world, mid, last, r + 1);
      forall k: nat | k < |calls|
        ensures Tells(t.records, t.events, |s.records| + k, calls[k], r)
      {
        if k < |front| {
          assert Tells(mid.records, mid.events, |s.records| + k, front[k], r);
          TellsLater(mid, t, |s.records| + k, calls[k], r);
        }
      }
    }
  }

  lemma CallIsTold(config: Config, world: World, s: State, call: ToolCall, r: nat)
    requires |s.events| == 2 * |s.records|
    ensures var t := AfterCall(config, world, s, call, r + 1);
      && Sent(t.engine) == Sent(s.engine)
      && |t.records| == |s.records| + 1 && |t.events| == 2 * |t.records|
      && s.records <= t.records && s.events <= t.events
      && Tells(t.records, t.events, |s.records|, call, r)
  {
    if Handled(config, world, |s.records|, call).executed {
      SentSnoc(s.engine, RunTool(call));
    }
  }

  lemma TellsLater(s: State, t: State, k: nat, call: ToolCall, r: nat)
    requires Tells(s.records, s.events, k, call, r) && s.records <= t.records && s.events <= t.events
    ensures Tells(t.records, t.events, k, call, r)
  {
  }

  lemma TurnAsks(text: string, calls: seq<ToolCall>)
    ensures CarriesCalls(AssistantTurn(text, calls), text, calls)
  {
  }

  lemma TurnReplies(records: seq<Record>)
    ensures CarriesAnswers(ResultsTurn(AnswersOf(records)), records)
  {
  }

  // ----- one round -----

  lemma RoundLater(world: World, lead: nat, s: State, t: State, r: nat)
    requires RoundWritten(world, lead, s.history, s.records, s.events, r)
    requires s.history <= t.history && s.records <= t.records && s.events <= t.events
    ensures RoundWritten(world, lead, t.history, t.records, t.events, r)
  {
    var from, calls := CallsBefore(world, r), CallsAt(world, r);
    assert t.records[from..from + |calls|] == s.records[from..from + |calls|];
    forall k: nat | k < |calls|
      ensures Tells(t.records, t.events, from + k, calls[k], r)
    {
      TellsLater(s, t, from + k, calls[k], r);
    }
  }

  lemma AsksLater(config: Config, lead: nat, s: State, t: State, q: nat)
    requires AskedWith(config, lead, s, q) && s.history <= t.history && Sent(s.engine) <= Sent(t.engine)
    ensures AskedWith(config, lead, t, q)
  {
    assert t.history[..lead + 2 * q] == s.history[..lead + 2 * q];
  }

  /** Nothing said of a state is lost in one that goes on from it. */
  lemma StillTold(config: Config, world: World, messages: seq<Message>, s: State, t: State, r: nat)
    requires Told(config, world, messages, s, r, r)
    requires s.history <= t.history && s.records <= t.records && s.events <= t.events && Sent(s.engine) <= Sent(t.engine)
    ensures AllAsked(config, |messages|, t, r)
    ensures AllRounds(world, |messages|, t.history, t.records, t.events, r)
  {
    forall q: nat | q < r
      ensures AskedWith(config, |messages|, t, q)
    {
      AsksLater(config, |messages|, s, t, q);
    }
    forall q: nat | q < r
      ensures RoundWritten(world, |messages|, t.history, t.records, t.events, q)
    {
      RoundLater(world, |messages|, s, t, q);
    }
  }

  lemma AskIsSent(config: Config, lead: nat, s: State, t: State, r: nat)
    requires |Sent(s.engine)| == r && |s.history| == lead + 2 * r && s.history <= t.history
    requires Sent(t.engine) == Sent(s.engine) + [AskProvider(s.history, config.tools)]
    ensures AskedWith(config, lead, t, r)
  {
    assert t.history[..lead + 2 * r] == s.history;
  }

  /** A round that goes on: the ask, the reply's turn, its calls handled, and their answers. */
  lemma RoundGoesOn(config: Config, world: World, s: State, r: nat, t: State) returns (answered: State)
    requires RunRound(config, world, s, r) == Continue(t)
    ensures answered == State(s.history + [AssistantTurn(TextOf(world, r), CallsAt(world, r))], s.records, s.events,
                              s.engine + [AskProvider(s.history, config.tools)])
    ensures var handled := AfterCalls(config, world, answered, CallsAt(world, r), r + 1);
      && t.records == handled.records && t.events == handled.events && t.engine == handled.engine
      && |s.records| <= |t.records|
      && t.history == answered.history + [ResultsTurn(AnswersOf(t.records[|s.records|..]))]
  {
    answered := State(s.history + [AssistantTurn(TextOf(world, r), CallsAt(world, r))], s.records, s.events,
                      s.engine + [AskProvider(s.history, config.tools)]);
    AfterCallsGrows(config, world, answered, CallsAt(world, r), r + 1);
  }

  lemma RoundAdds(config: Config, world: World, s: State, r: nat, t: State)
    requires RunRound(config, world, s, r) == Continue(t) && |s.events| == 2 * |s.records|
    ensures Sent(t.engine) == Sent(s.engine) + [AskProvider(s.history, config.tools)]
    ensures s.records <= t.records && |t.records| == |s.records| + |CallsAt(world, r)|
    ensures s.events <= t.events && |t.events| == 2 * |t.records|
    ensures TellsAll(t.records, t.events, |s.records|, CallsAt(world, r), r)
    ensures t.history == s.history
              + [AssistantTurn(TextOf(world, r), CallsAt(world, r))] + [ResultsTurn(AnswersOf(t.records[|s.records|..]))]
  {
    var answered := RoundGoesOn(config, world, s, r, t);
    SentSnoc(s.engine, AskProvider(s.history, config.tools));
    CallsAreTold(config, world, answered, CallsAt(world, r), r);
  }

  lemma ContinueIsTold(config: Config, world: World, messages: seq<Message>, s: State, r: nat, t: State)
    requires Told(config, world, messages, s, r, r) && |s.history| == |messages| + 2 * r
    requires RunRound(config, world, s, r) == Continue(t)
    ensures Told(config, world, messages, t, r + 1, r + 1) && |t.history| == |messages| + 2 * (r + 1)
  {
    RoundAdds(config, world, s, r, t);
    TurnsAreTold(config, world, messages, s, t, r);
  }

  lemma TurnsAreTold(config: Config, world: World, messages: seq<Message>, s: State, t: State, r: nat)
    requires Told(config, world, messages, s, r, r) && |s.history| == |messages| + 2 * r
    requires Sent(t.engine) == Sent(s.engine) + [AskProvider(s.history, config.tools)]
    requires s.records <= t.records && |t.records| == |s.records| + |CallsAt(world, r)|
    requires s.events <= t.events && |t.events| == 2 * |t.records|
    requires TellsAll(t.records, t.events, |s.records|, CallsAt(world, r), r)
    requires t.history == s.history
               + [AssistantTurn(TextOf(world, r), CallsAt(world, r))] + [ResultsTurn(AnswersOf(t.records[|s.records|..]))]
    ensures Told(config, world, messages, t, r + 1, r + 1) && |t.history| == |messages| + 2 * (r + 1)
  {
    RoundIsWritten(world, |messages|, s, t, r);
    var turn, answers := t.history[|s.history|], t.history[|s.history| + 1];
    assert t.history == s.history + [turn, answers];
    TwoMoreTold(config, world, messages, s, t, r);
  }

  lemma TwoMoreTold(config: Config, world: World, messages: seq<Message>, s: State, t: State, r: nat)
    requires Told(config, world, messages, s, r, r) && |s.history| == |messages| + 2 * r
    requires Sent(t.engine) == Sent(s.engine) + [AskProvider(s.history, config.tools)]
    requires s.records <= t.records && |t.records| == |s.records| + |CallsAt(world, r)|
    requires s.events <= t.events && |t.events| == 2 * |t.records|
    requires s.history <= t.history && |t.history| == |s.history| + 2
    requires RoundWritten(world, |messages|, t.history, t.records, t.events, r)
    ensures Told(config, world, messages, t, r + 1, r + 1) && |t.history| == |messages| + 2 * (r + 1)
  {
    StillTold(config, world, messages, s, t, r);
    AskIsSent(config, |messages|, s, t, r);
    OneMoreAsk(config, |messages|, t, r);
    OneMoreRound(world, |messages|, t, r);
  }

  lemma OneMoreAsk(config: Config, lead: nat, t: State, asks: nat)
    requires AllAsked(config, lead, t, asks) && AskedWith(config, lead, t, asks)
    ensures AllAsked(config, lead, t, asks + 1)
  {
  }

  lemma OneMoreRound(world: World, lead: nat, t: State, rounds: nat)
    requires AllRounds(world, lead, t.history, t.records, t.events, rounds)
    requires RoundWritten(world, lead, t.history, t.records, t.events, rounds)
    ensures AllRounds(world, lead, t.history, t.records, t.events, rounds + 1)
  {
  }

  lemma {:induction false} RoundIsWritten(world: World, lead: nat, s: State, t: State, r: nat)
    requires |s.history| == lead + 2 * r && |s.records| == CallsBefore(world, r)
    requires |t.records| == |s.records| + |CallsAt(world, r)|
    requires TellsAll(t.records, t.events, |s.records|, CallsAt(world, r), r)
    requires t.history == s.history
               + [AssistantTurn(TextOf(world, r), CallsAt(world, r))] + [ResultsTurn(AnswersOf(t.records[|s.records|..]))]
    ensures RoundWritten(world, lead, t.history, t.records, t.events, r)
  {
    var turn, answers := AssistantTurn(TextOf(world, r), CallsAt(world, r)), ResultsTurn(AnswersOf(t.records[|s.records|..]));
    TurnAsks(TextOf(world, r), CallsAt(world, r));
    TurnReplies(t.records[|s.records|..]);
    TwoTurnsWritten(world, lead, s.history, t, r, turn, answers);
  }

  lemma {:induction false} TwoTurnsWritten(
      world: World, lead: nat, history: seq<Message>, t: State, r: nat, turn: Message, answers: Message)
    requires |history| == lead + 2 * r && t.history == history + [turn] + [answers]
    requires |t.records| == CallsBefore(world, r) + |CallsAt(world, r)|
    requires CarriesCalls(turn, TextOf(world, r), CallsAt(world, r)) && CarriesAnswers(answers, t.records[CallsBefore(world, r)..])
    requires TellsAll(t.records, t.events, CallsBefore(world, r), CallsAt(world, r), r)
    ensures RoundWritten(world, lead, t.history, t.records, t.events, r)
  {
    assert t.history[lead + 2 * r] == turn && t.history[lead + 2 * r + 1] == answers;
    assert t.records[CallsBefore(world, r)..|t.records|] == t.records[CallsBefore(world, r)..];
  }

  // ----- the whole run -----

  /** How a run that went through `n` whole rounds ended. */
  ghost predicate ToldAll(config: Config, world: World, messages: seq<Message>, result: LoopResult, t: State, n: nat) {
    && Told(config, world, messages, t, n, result.iterations)
    && result.messages == t.history && result.toolCalls == t.records
    && |t.history| == |messages| + 2 * n + (if result.success then 1 else 0)
    && (result.success ==>
          result.text == Some(TextOf(world, n)) && CarriesCalls(t.history[|messages| + 2 * n], TextOf(world, n), []))
  }

  lemma StopIsTold(config: Config, world: World, messages: seq<Message>, s: State, r: nat, result: LoopResult, t: State)
    requires Told(config, world, messages, s, r, r) && |s.history| == |messages| + 2 * r
    requires RunRound(config, world, s, r) == Stop(result, t)
    ensures ToldAll(config, world, messages, result, t, r)
  {
    SentSnoc(s.engine, AskProvider(s.history, config.tools));
    TurnAsks(TextOf(world, r), []);
    StopLeaves(config, world, s, r, result, t);
    StillTold(config, world, messages, s, t, r);
    AskIsSent(config, |messages|, s, t, r);
    OneMoreAsk(config, |messages|, t, r);
  }

  lemma StopLeaves(config: Config, world: World, s: State, r: nat, result: LoopResult, t: State)
    requires RunRound(config, world, s, r) == Stop(result, t)
    ensures t.records == s.records && t.events == s.events && result.iterations == r + 1
    ensures t.engine == s.engine + [AskProvider(s.history, config.tools)]
    ensures result.messages == t.history && result.toolCalls == t.records
    ensures t.history == s.history + (if result.success then [AssistantTurn(TextOf(world, r), [])] else [])
    ensures result.success ==> result.text == Some(TextOf(world, r))
  {
  }

  lemma {:induction false} ExhaustedIsTold(
      config: Config, world: World, messages: seq<Message>, s: State, result: LoopResult)
    requires Told(config, world, messages, s, config.maxIterations, config.maxIterations)
    requires |s.history| == |messages| + 2 * config.maxIterations
    requires RunLoop(config, world, s, config.maxIterations) == (result, s)
    ensures ToldAll(config, world, messages, result, s, config.maxIterations)
  {
  }

  /** One turn of the loop: the next round's run, or its end. */
  lemma LoopUnfolds(config: Config, world: World, s: State, r: nat)
    requires r < config.maxIterations
    ensures match RunRound(config, world, s, r)
      case Continue(next) => GoesOn(world, r) && RunLoop(config, world, s, r) == RunLoop(config, world, next, r + 1)
      case Stop(result, t) => !GoesOn(world, r) && RunLoop(config, world, s, r) == (result, t)
  {
  }

  lemma DecidedLater(config: Config, world: World, r: nat, n: nat)
    requires DecidedBy(config, world, r, n)
    ensures r == config.maxIterations ==> n == r
    ensures r < config.maxIterations && GoesOn(world, r) ==> DecidedBy(config, world, r + 1, n)
    ensures r < config.maxIterations && !GoesOn(world, r) ==> n == r
  {
  }

  lemma {:induction false} RunIsTold(
      config: Config, world: World, messages: seq<Message>, s: State, r: nat, n: nat, result: LoopResult, t: State)
    requires DecidedBy(config, world, r, n)
    requires Told(config, world, messages, s, r, r) && |s.history| == |messages| + 2 * r
    requires RunLoop(config, world, s, r) == (result, t)
    ensures ToldAll(config, world, messages, result, t, n)
    decreases config.maxIterations - r
  {
    DecidedLater(config, world, r, n);
    if r == config.maxIterations {
      ExhaustedIsTold(config, world, messages, s, result);
    } else {
      LoopUnfolds(config, world, s, r);
      match RunRound(config, world, s, r) {
        case Continue(next) =>
          ContinueIsTold(config, world, messages, s, r, next);
          RunIsTold(config, world, messages, next, r + 1, n, result, t);
        case Stop(_, _) =>
          StopIsTold(config, world, messages, s, r, result, t);
      }
    }
  }

  /** Every run, of whatever replies, hooks and tools: it goes through whole rounds up to the first reply
      without calls, a failed one, or the bound. Each ask carries exactly the caller's messages and the
      two turns of every round before it, with the tools on offer; each of those rounds wrote down its
      reply's text and calls, then one answer for each, from a record of that very call. */
  lemma EveryRoundIsTold(config: Config, world: World, messages: seq<Message>) returns (n: nat)
    ensures DecidedBy(config, world, 0, n)
    ensures var (result, t) := RunLoop(config, world, State(messages, [], [], []), 0);
      && messages <= result.messages
      && |result.messages| == |messages| + 2 * n + (if result.success then 1 else 0)
      && |Sent(t.engine)| == result.iterations
      && (forall q: nat :: q < result.iterations ==>
            && |messages| + 2 * q <= |result.messages|
            && Sent(t.engine)[q] == AskProvider(result.messages[..|messages| + 2 * q], config.tools))
      && |result.toolCalls| == CallsBefore(world, n)
      && AllRounds(world, |messages|, result.messages, result.toolCalls, t.events, n)
      && (result.success ==>
            && result.text == Some(TextOf(world, n))
            && CarriesCalls(result.messages[|messages| + 2 * n], TextOf(world, n), []))
  {
    n := SomethingDecides(config, world);
    var (result, t) := RunLoop(config, world, State(messages, [], [], []), 0);
    RunIsTold(config, world, messages, State(messages, [], [], []), 0, n, result, t);
    forall q: nat | q < result.iterations
      ensures |messages| + 2 * q <= |result.messages|
      ensures Sent(t.engine)[q] == AskProvider(result.messages[..|messages| + 2 * q], config.tools)
    {
      assert AskedWith(config, |messages|, t, q);
    }
  }
}
