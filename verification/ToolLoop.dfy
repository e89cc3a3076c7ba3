/** The bounded loop in which a model asks for tools and the kernel answers. */
module ToolLoop {
  import opened Kernel
  import opened ToolCalling
  import ExecutionTypes
  import Json

  datatype Record = Record(call: ToolCall, executed: bool, success: bool, result: string)

  datatype Event =
    | Requested(callId: string, toolId: string, iteration: nat)
    | Completed(callId: string, toolId: string, success: bool)
    | Refused(callId: string, toolId: string, reason: string)

  datatype ToolSpec = ToolSpec(name: string, description: string, objectSchema: bool)

  /** What reaches the execution engine. */
  datatype EngineCall = AskProvider(messages: seq<Message>, tools: seq<ToolSpec>) | RunTool(call: ToolCall)

  datatype Decision = Decision(allowed: bool, reason: Option<string>)

  /** A provider's payload: None where the text is not a string, the calls are not a sequence, or an
      entry is not a `ToolCall`. */
  datatype Payload = Payload(text: Option<string>, entries: Option<seq<Option<ToolCall>>>)

  datatype Reply = Reply(success: bool, payload: Option<Payload>, error: Option<string>)

  /** What the run cannot see into: the n-th provider reply, and for the n-th handled call the
      hook's answer and the engine's. Any run reads each of these at most once. */
  datatype World = World(
    reply: nat -> Reply,
    hook: nat -> Decision,
    tool: nat -> ExecutionTypes.Result,
    render: Json.Fields -> string)

  datatype Config = Config(tools: seq<ToolSpec>, maxIterations: nat)

  /** The names of the tools described to the model. */
  function Offered(tools: seq<ToolSpec>): set<string> {
    set i | 0 <= i < |tools| :: tools[i].name
  }

  datatype State = State(
    history: seq<Message>,
    records: seq<Record>,
    events: seq<Event>,
    engine: seq<EngineCall>)

  datatype LoopResult = LoopResult(
    success: bool,
    text: Option<string>,
    messages: seq<Message>,
    toolCalls: seq<Record>,
    iterations: nat,
    exhausted: bool,
    error: Option<string>)

  /** Python's `text or fallback`. */
  function Or(text: Option<string>, fallback: string): string {
    if text.Some? && text.value != "" then text.value else fallback
  }

  function Present(entries: seq<Option<ToolCall>>): seq<ToolCall> {
    if entries == [] then []
    else (if entries[0].Some? then [entries[0].value] else []) + Present(entries[1..])
  }

  function ReplyText(payload: Payload): string {
    if payload.text.Some? then payload.text.value else ""
  }

  function ReplyCalls(payload: Payload): seq<ToolCall> {
    if payload.entries.Some? then Present(payload.entries.value) else []
  }

  lemma {:induction false} PresentSnoc(entries: seq<Option<ToolCall>>, last: Option<ToolCall>)
    ensures Present(entries + [last]) == Present(entries) + (if last.Some? then [last.value] else [])
  {
    if entries == [] {
      assert [last][1..] == [];
    } else {
      PresentSnoc(entries[1..], last);
      assert (entries + [last])[1..] == entries[1..] + [last];
    }
  }

  method Parse(payload: Payload) returns (text: string, calls: seq<ToolCall>)
    ensures text == ReplyText(payload) && calls == ReplyCalls(payload)
  {
    text := if payload.text.Some? then payload.text.value else "";
    calls := [];
    if payload.entries.Some? {
      var entries := payload.entries.value;
      for k := 0 to |entries|
        invariant calls == Present(entries[..k])
      {
        assert entries[..k + 1] == entries[..k] + [entries[k]];
        PresentSnoc(entries[..k], entries[k]);
        if entries[k].Some? {
          calls := calls + [entries[k].value];
        }
      }
      assert entries[..|entries|] == entries;
    }
  }

  // ----- one call -----

  /** The record of the n-th handled call: refused unless offered and allowed, else executed. */
  function Handled(config: Config, world: World, n: nat, call: ToolCall): Record {
    if call.name !in Offered(config.tools) then Record(call, false, false, "Tool is not in the offered set.")
    else if !world.hook(n).allowed then Record(call, false, false, Or(world.hook(n).reason, "Tool call declined."))
    else
      var outcome := world.tool(n);
      Record(call, true, outcome.success,
             if outcome.success then (if outcome.payload.Some? then world.render(outcome.payload.value) else "")
             else Or(outcome.error, "Tool execution failed."))
  }

  function Opening(record: Record, iteration: nat): Event {
    Requested(record.call.id, record.call.name, iteration)
  }

  function Closing(record: Record): Event {
    if record.executed then Completed(record.call.id, record.call.name, record.success)
    else Refused(record.call.id, record.call.name, record.result)
  }

  function Answer(record: Record): ResultBlock {
    ResultBlock(record.call.id, record.result, !record.success)
  }

  function AfterCall(config: Config, world: World, s: State, call: ToolCall, iteration: nat): State {
    var record := Handled(config, world, |s.records|, call);
    s.(records := s.records + [record],
       events := s.events + [Opening(record, iteration), Closing(record)],
       engine := if record.executed then s.engine + [RunTool(call)] else s.engine)
  }

  function AfterCalls(config: Config, world: World, s: State, calls: seq<ToolCall>, iteration: nat): State {
    if calls == [] then s
    else
      AfterCall(config, world, AfterCalls(config, world, s, calls[..|calls| - 1], iteration), calls[|calls| - 1], iteration)
  }

  function AnswersOf(records: seq<Record>): (blocks: seq<ResultBlock>)
    ensures |blocks| == |records|
  {
    seq(|records|, i requires 0 <= i < |records| => Answer(records[i]))
  }

  // ----- the rounds -----

  /** How one round leaves the loop: with a result, or with a longer history. */
  datatype Round = Stop(result: LoopResult, state: State) | Continue(state: State)

  function RunRound(config: Config, world: World, s: State, iteration: nat): Round {
    var reply := world.reply(iteration);
    var asked := s.(engine := s.engine + [AskProvider(s.history, config.tools)]);
    if !reply.success || reply.payload.None? then
      Stop(LoopResult(false, None, asked.history, asked.records, iteration + 1, false,
                      Some(Or(reply.error, "Provider returned no payload."))), asked)
    else
      var text, calls := ReplyText(reply.payload.value), ReplyCalls(reply.payload.value);
      var answered := asked.(history := asked.history + [AssistantTurn(text, calls)]);
      if calls == [] then
        Stop(LoopResult(true, Some(text), answered.history, answered.records, iteration + 1, false, None), answered)
      else
        var handled := AfterCalls(config, world, answered, calls, iteration + 1);
        AfterCallsGrows(config, world, answered, calls, iteration + 1);
        var added := handled.records[|s.records|..];
        Continue(handled.(history := handled.history + [ResultsTurn(AnswersOf(added))]))
  }

  lemma {:induction false} AfterCallsGrows(config: Config, world: World, s: State, calls: seq<ToolCall>, iteration: nat)
    ensures var t := AfterCalls(config, world, s, calls, iteration);
      && t.history == s.history
      && |t.records| == |s.records| + |calls|
      && t.records[..|s.records|] == s.records
      && (forall i :: 0 <= i < |calls| ==>
            t.records[|s.records| + i] == Handled(config, world, |s.records| + i, calls[i]))
  {
    if calls != [] {
      AfterCallsGrows(config, world, s, calls[..|calls| - 1], iteration);
    }
  }

  function RunLoop(config: Config, world: World, s: State, iteration: nat): (LoopResult, State)
    requires iteration <= config.maxIterations
    decreases config.maxIterations - iteration
  {
    if iteration == config.maxIterations then
      (LoopResult(false, None, s.history, s.records, iteration, true,
                  Some("Tool loop stopped without a final answer.")), s)
    else
      match RunRound(config, world, s, iteration)
      case Stop(result, t) => (result, t)
      case Continue(t) => RunLoop(config, world, t, iteration + 1)
  }

  // ----- the loop as it is driven -----

  datatype LoopError =
    | NoMessages
    | EmptyAllowlist
    | UnknownTool(id: string)
    | BadSpec(id: string)
    | UnknownProvider
    | NoToolCallSupport

  class ToolCallLoop {
    const tools: map<string, ToolSpec>
    const providers: map<string, bool>  // whether each registered provider supports tool calls
    // Of the current run: its records, the events that carry its loop id, its calls of the engine.
    var records: seq<Record>
    var events: seq<Event>
    var engine: seq<EngineCall>

    constructor (tools: map<string, ToolSpec>, providers: map<string, bool>)
      ensures this.tools == tools && this.providers == providers
      ensures records == [] && events == [] && engine == []
    {
      this.tools, this.providers := tools, providers;
      records, events, engine := [], [], [];
    }

    /** Every id must be registered, and the description of every tool must be a valid spec. */
    method Describe(toolIds: seq<string>) returns (r: Fallible<seq<ToolSpec>, LoopError>)
      ensures r.Ok? <==>
        forall i :: 0 <= i < |toolIds| ==>
          && toolIds[i] in tools && !Blank(tools[toolIds[i]].name) && !Blank(tools[toolIds[i]].description)
          && tools[toolIds[i]].objectSchema
      ensures r.Ok? ==> |r.value| == |toolIds| && forall i :: 0 <= i < |toolIds| ==> r.value[i] == tools[toolIds[i]]
      ensures r.Err? ==>
        exists i :: 0 <= i < |toolIds| && (forall j :: 0 <= j < i ==> Describable(toolIds[j])) && !Describable(toolIds[i])
                    && r.error == if toolIds[i] in tools then BadSpec(toolIds[i]) else UnknownTool(toolIds[i])
    {
      var specs: seq<ToolSpec> := [];
      for k := 0 to |toolIds|
        invariant |specs| == k && forall i :: 0 <= i < k ==> Describable(toolIds[i]) && specs[i] == tools[toolIds[i]]
      {
        if toolIds[k] !in tools {
          return Err(UnknownTool(toolIds[k]));
        }
        var spec := tools[toolIds[k]];
        if Blank(spec.name) || Blank(spec.description) || !spec.objectSchema {
          return Err(BadSpec(toolIds[k]));
        }
        specs := specs + [spec];
      }
      return Ok(specs);
    }

    predicate Describable(id: string) {
      id in tools && !Blank(tools[id].name) && !Blank(tools[id].description) && tools[id].objectSchema
    }

    function Specs(ids: seq<string>): (specs: seq<ToolSpec>)
      requires forall i :: 0 <= i < |ids| ==> Describable(ids[i])
      ensures |specs| == |ids| && forall i :: 0 <= i < |ids| ==> ids[i] in tools && specs[i] == tools[ids[i]]
    {
      assert forall i :: 0 <= i < |ids| ==> Describable(ids[i]);
      seq(|ids|, i requires 0 <= i < |ids| && ids[i] in tools => tools[ids[i]])
    }

    ghost function View(history: seq<Message>): State
      reads this
    {
      State(history, records, events, engine)
    }

    method Reject(call: ToolCall, reason: string) returns (block: ResultBlock)
      modifies this
      ensures records == old(records) + [Record(call, false, false, reason)]
      ensures events == old(events) + [Refused(call.id, call.name, reason)]
      ensures engine == old(engine)
      ensures block == ResultBlock(call.id, reason, true)
    {
      records := records + [Record(call, false, false, reason)];
      events := events + [Refused(call.id, call.name, reason)];
      return ResultBlock(call.id, reason, true);
    }

    method Handle(config: Config, world: World, call: ToolCall, iteration: nat) returns (block: ResultBlock)
      modifies this
      ensures forall history :: View(history) == AfterCall(config, world, old(View(history)), call, iteration)
      ensures |records| == |old(records)| + 1 && block == Answer(records[|old(records)|])
    {
      var n := |records|;
      events := events + [Requested(call.id, call.name, iteration)];
      if call.name !in Offered(config.tools) {
        block := Reject(call, "Tool is not in the offered set.");
        return;
      }
      var decision := world.hook(n);
      if !decision.allowed {
        block := Reject(call, Or(decision.reason, "Tool call declined."));
        return;
      }
      engine := engine + [RunTool(call)];
      var outcome := world.tool(n);
      var rendered: string;
      if outcome.success {
        rendered := if outcome.payload.Some? then world.render(outcome.payload.value) else "";
      } else {
        rendered := Or(outcome.error, "Tool execution failed.");
      }
      records := records + [Record(call, true, outcome.success, rendered)];
      events := events + [Completed(call.id, call.name, outcome.success)];
      return ResultBlock(call.id, rendered, !outcome.success);
    }

    method HandleAll(config: Config, world: World, calls: seq<ToolCall>, iteration: nat) returns (blocks: seq<ResultBlock>)
      modifies this
      ensures forall history :: View(history) == AfterCalls(config, world, old(View(history)), calls, iteration)
      ensures |old(records)| <= |records| && blocks == AnswersOf(records[|old(records)|..])
    {
      blocks := [];
      for k := 0 to |calls|
        invariant forall history :: View(history) == AfterCalls(config, world, old(View(history)), calls[..k], iteration)
        invariant |records| == |old(records)| + k && blocks == AnswersOf(records[|old(records)|..])
      {
        label before:
        assert calls[..k + 1][..k] == calls[..k];
        var block := Handle(config, world, calls[k], iteration);
        assert View([]).records == old@before(records) + [records[|old(records)| + k]];
        assert records[|old(records)|..] == old@before(records)[|old(records)|..] + [records[|old(records)| + k]];
        blocks := blocks + [block];
      }
      assert calls[..|calls|] == calls;
    }

    method RunRounds(config: Config, world: World, messages: seq<Message>) returns (result: LoopResult)
      modifies this
      ensures RunLoop(config, world, State(messages, [], [], []), 0) == (result, View(result.messages))
    {
      records, events, engine := [], [], [];
      var history := messages;
      ghost var goal := RunLoop(config, world, State(messages, [], [], []), 0);
      var iteration := 0;
      while iteration < config.maxIterations
        invariant iteration <= config.maxIterations
        invariant RunLoop(config, world, View(history), iteration) == goal
      {
        ghost var round := RunRound(config, world, View(history), iteration);
        ghost var known := records;
        engine := engine + [AskProvider(history, config.tools)];
        var response := world.reply(iteration);
        iteration := iteration + 1;
        if !response.success || response.payload.None? {
          return LoopResult(false, None, history, records, iteration, false,
                            Some(Or(response.error, "Provider returned no payload.")));
        }
        var text, calls := Parse(response.payload.value);
        var turn := AssistantMessage(text, calls);
        history := history + [turn];
        if calls == [] {
          return LoopResult(true, Some(text), history, records, iteration, false, None);
        }
        ghost var answered := View(history);
        var blocks := HandleAll(config, world, calls, iteration);
        AfterCallsGrows(config, world, answered, calls, iteration);
        assert round == Continue(View(history + [ResultsTurn(blocks)]));
        history := history + [ResultsTurn(blocks)];
      }
      return LoopResult(false, None, history, records, iteration, true, Some("Tool loop stopped without a final answer."));
    }

    /** Nothing runs unless the messages, the allowlist and the provider are all acceptable. */
    method Run(providerName: string, messages: seq<Message>, toolIds: seq<string>, maxIterations: nat, world: World)
      returns (r: Fallible<LoopResult, LoopError>)
      requires 1 <= maxIterations
      modifies this
      ensures r.Ok? <==>
        && messages != [] && toolIds != []
        && (forall i :: 0 <= i < |toolIds| ==>
              && toolIds[i] in tools && !Blank(tools[toolIds[i]].name) && !Blank(tools[toolIds[i]].description)
              && tools[toolIds[i]].objectSchema)
        && providerName in providers && providers[providerName]
      ensures r.Err? ==> View([]) == old(View([]))
      ensures r.Err? ==>
        match r.error
        case NoMessages => messages == []
        case EmptyAllowlist => toolIds == []
        case UnknownTool(id) => id in toolIds && id !in tools
        case BadSpec(id) => id in toolIds && id in tools && !Describable(id)
        case UnknownProvider => providerName !in providers
        case NoToolCallSupport => providerName in providers && !providers[providerName]
      ensures r.Ok? ==>
        RunLoop(Config(Specs(toolIds), maxIterations), world, State(messages, [], [], []), 0)
          == (r.value, View(r.value.messages))
    {
      if messages == [] {
        return Err(NoMessages);
      }
      if toolIds == [] {
        return Err(EmptyAllowlist);
      }
      var described := Describe(toolIds);
      if described.Err? {
        return Err(described.error);
      }
      if providerName !in providers {
        return Err(UnknownProvider);
      }
      if !providers[providerName] {
        return Err(NoToolCallSupport);
      }
      assert described.value == Specs(toolIds);
      var result := RunRounds(Config(described.value, maxIterations), world, messages);
      return Ok(result);
    }
  }
}
