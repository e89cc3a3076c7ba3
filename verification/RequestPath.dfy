/** Permissions, and the tools and providers a request can reach. */
module Permissions {
  predicate Segment(s: string) {
    s != [] && 'a' <= s[0] <= 'z'
    && forall i :: 1 <= i < |s| ==> 'a' <= s[i] <= 'z' || '0' <= s[i] <= '9' || s[i] == '_'
  }

  predicate Dotted(s: string) {
    exists i :: 0 <= i < |s| && s[i] == '.' && Segment(s[..i]) && (Segment(s[i + 1..]) || Dotted(s[i + 1..]))
  }

  /** The permission pattern; its `$` also matches before one trailing newline. */
  predicate WellFormedPermission(s: string) {
    Dotted(s) || (s != [] && s[|s| - 1] == '\n' && Dotted(s[..|s| - 1]))
  }

  /** A segment: lower-case letters, digits and underscores, a letter first. */
  ghost predicate Word(part: string) {
    && part != [] && 'a' <= part[0] <= 'z'
    && forall c :: c in part ==> 'a' <= c <= 'z' || '0' <= c <= '9' || c == '_'
  }

  ghost function Joined(parts: seq<string>): string {
    if parts == [] then [] else if |parts| == 1 then parts[0] else parts[0] + "." + Joined(parts[1..])
  }

  /** Two or more segments joined by dots. */
  ghost predicate JoinsWords(s: string, parts: seq<string>) {
    2 <= |parts| && s == Joined(parts) && forall i :: 0 <= i < |parts| ==> Word(parts[i])
  }

  lemma SegmentIsWord(s: string)
    ensures Segment(s) <==> Word(s)
  {
    if Segment(s) {
      assert forall c :: c in s ==> 'a' <= c <= 'z' || '0' <= c <= '9' || c == '_';
    }
    if Word(s) {
      assert forall i :: 0 <= i < |s| ==> s[i] in s;
    }
  }

  ghost predicate DottedWords(s: string) {
    exists parts :: JoinsWords(s, parts)
  }

  lemma {:induction false} WordsBehind(first: string, rest: string, parts: seq<string>)
    requires Word(first) && parts != [] && rest == Joined(parts) && forall i :: 0 <= i < |parts| ==> Word(parts[i])
    ensures JoinsWords(first + "." + rest, [first] + parts)
  {
    assert ([first] + parts)[1..] == parts;
  }

  lemma DottedSplits(s: string) returns (first: string, rest: string)
    requires Dotted(s)
    ensures s == first + "." + rest && |rest| < |s| && Word(first) && (Word(rest) || Dotted(rest))
  {
    var i :| 0 <= i < |s| && s[i] == '.' && Segment(s[..i]) && (Segment(s[i + 1..]) || Dotted(s[i + 1..]));
    first, rest := s[..i], s[i + 1..];
    SegmentIsWord(first);
    SegmentIsWord(rest);
    SplitAtDot(s, i);
  }

  lemma SplitAtDot(s: string, i: nat)
    requires i < |s| && s[i] == '.'
    ensures s == s[..i] + "." + s[i + 1..]
  {
  }

  lemma {:induction false} DottedAreWords(s: string)
    requires Dotted(s)
    ensures DottedWords(s)
    decreases |s|
  {
    var first, rest := DottedSplits(s);
    if Word(rest) {
      WordsBehind(first, rest, [rest]);
    } else {
      DottedAreWords(rest);
      var parts :| JoinsWords(rest, parts);
      WordsBehind(first, rest, parts);
    }
  }

  lemma {:induction false} WordsAreDotted(s: string, parts: seq<string>)
    requires JoinsWords(s, parts)
    ensures Dotted(s)
    decreases |parts|
  {
    var i, rest := |parts[0]|, Joined(parts[1..]);
    SegmentIsWord(parts[0]);
    if |parts| == 2 {
      SegmentIsWord(parts[1]);
    } else {
      assert JoinsWords(rest, parts[1..]);
      WordsAreDotted(rest, parts[1..]);
    }
    assert s == parts[0] + "." + rest;
    assert s[i] == '.' && s[..i] == parts[0] && s[i + 1..] == rest;
  }

  /** A permission is well formed exactly when it is two or more segments joined by dots, with or without
      one newline at the end. */
  lemma PermissionFormat(s: string)
    ensures WellFormedPermission(s)
       <==> DottedWords(s) || (s != [] && s[|s| - 1] == '\n' && DottedWords(s[..|s| - 1]))
  {
    DottedExactly(s);
    if s != [] {
      DottedExactly(s[..|s| - 1]);
    }
  }

  lemma {:induction false} DottedExactly(s: string)
    ensures Dotted(s) <==> DottedWords(s)
  {
    if Dotted(s) {
      DottedAreWords(s);
    }
    if parts :| JoinsWords(s, parts) {
      WordsAreDotted(s, parts);
    }
  }

  predicate AllWellFormed(permissions: set<string>) {
    forall p :: p in permissions ==> WellFormedPermission(p)
  }

  function Missing(required: set<string>, granted: set<string>): set<string> {
    required - granted
  }

  lemma NothingMissing(required: set<string>, granted: set<string>)
    ensures Missing(required, granted) == {} <==> required <= granted
  {
    if !(required <= granted) {
      var p :| p in required && p !in granted;
      assert p in Missing(required, granted);
    }
  }
}

/** Dispatching a request to a tool's pipeline or to a provider. */
module Dispatch {
  import opened Kernel
  import Json
  import opened ExecutionTypes
  import opened Permissions

  /** What `validate` does: return, raise its declared error, or raise something else. */
  datatype Verdict = Accepted | Rejected(text: string) | Broke(exn: Exn)

  /** What a body does: produce a result it built, or raise. */
  datatype Ran = Finished(result: Result) | Failed(exn: Exn)

  datatype Tool = Tool(
    permissions: set<string>,
    validate: Json.Fields -> Verdict,
    execute: Json.Fields -> Ran)

  datatype Reply = Response(payload: Json.Fields) | InvokeFailed(exn: Exn)

  datatype Provider = Provider(invoke: Json.Fields -> Reply)

  datatype Registries = Registries(tools: map<string, Tool>, providers: map<string, Provider>)

  /** A tool's results passed the result constructor. */
  ghost predicate BuildsResults(r: Registries) {
    forall id, payload :: id in r.tools && r.tools[id].execute(payload).Finished? ==>
      WellFormed(r.tools[id].execute(payload).result)
  }

  const MALFORMED := "Invalid permission."
  const MISSING := "Missing required permissions."
  const UNKNOWN := "Not registered."

  /** The result constructor, which raises on a failure without a non-blank error. */
  function Build(r: Result): (o: Outcome)
    ensures o.Returned? <==> WellFormed(r)
    ensures o.Returned? ==> o.result == r
  {
    if WellFormed(r) then Returned(r) else Raised(Exn("A failed result must include a non-empty error."))
  }

  function Failure(error: string, stage: Option<string>): Result {
    Result(false, None, Some(error), stage)
  }

  /** Validate, check permissions, execute: the outcome, and whether the body ran. */
  function RunPipeline(tool: Tool, payload: Json.Fields, granted: set<string>): (Outcome, bool) {
    match tool.validate(payload)
    case Broke(exn) => (Raised(exn), false)
    case Rejected(text) => (Build(Failure(text, Some("validate"))), false)
    case Accepted =>
      if Missing(tool.permissions, granted) != {} then (Build(Failure(MISSING, Some("permission_check"))), false)
      else
        match tool.execute(payload)
        case Failed(exn) => (Build(Failure(exn.text, Some("execute"))), true)
        case Finished(result) => (Build(result), true)
  }

  function DispatchToTool(r: Registries, request: Request, granted: set<string>): (Outcome, bool) {
    if request.operation !in r.tools then (Build(Failure(UNKNOWN, None)), false)
    else if !AllWellFormed(granted) then (Build(Failure(MALFORMED, Some("permission_check"))), false)
    else
      var (outcome, ran) := RunPipeline(r.tools[request.operation], request.payload, granted);
      match outcome
      case Raised(exn) => (outcome, ran)
      case Returned(result) => (Build(result), ran)
  }

  function DispatchToProvider(r: Registries, request: Request): (Outcome, bool) {
    if request.operation !in r.providers then (Build(Failure(UNKNOWN, None)), false)
    else
      match r.providers[request.operation].invoke(request.payload)
      case InvokeFailed(exn) => (Build(Failure(exn.text, None)), true)
      case Response(payload) => (Build(Result(true, Some(payload), None, None)), true)
  }

  /** The outcome of a dispatch, and whether the target's body ran. */
  function DispatchRequest(r: Registries, request: Request, granted: set<string>): (Outcome, bool) {
    match request.target
    case Tool => DispatchToTool(r, request, granted)
    case Provider => DispatchToProvider(r, request)
  }

  // ----- exactly when a dispatch returns -----

  /** Whether the exceptions met on the way to a result name themselves: `validate` raises at most its
      declared error, and no exception that becomes a result has a blank text. */
  predicate Speaks(r: Registries, request: Request, granted: set<string>) {
    match request.target
    case Provider =>
      request.operation in r.providers ==>
        var reply := r.providers[request.operation].invoke(request.payload);
        reply.InvokeFailed? ==> !Blank(reply.exn.text)
    case Tool =>
      request.operation in r.tools && AllWellFormed(granted) ==>
        var tool := r.tools[request.operation];
        match tool.validate(request.payload)
        case Broke(_) => false
        case Rejected(text) => !Blank(text)
        case Accepted =>
          var ran := tool.execute(request.payload);
          tool.permissions <= granted && ran.Failed? ==> !Blank(ran.exn.text)
  }

  lemma ConstantsSpeak()
    ensures !Blank(MALFORMED) && !Blank(MISSING) && !Blank(UNKNOWN)
  {
    assert MALFORMED[0] == 'I' && MISSING[0] == 'M' && UNKNOWN[0] == 'N';
  }

  /** A dispatch returns, with a well-formed result, exactly when the exceptions on its way speak. */
  lemma DispatchReturns(r: Registries, request: Request, granted: set<string>)
    requires BuildsResults(r)
    ensures DispatchRequest(r, request, granted).0.Returned? <==> Speaks(r, request, granted)
    ensures DispatchRequest(r, request, granted).0.Returned? ==>
              WellFormed(DispatchRequest(r, request, granted).0.result)
  {
    ConstantsSpeak();
    if request.operation in r.tools {
      NothingMissing(r.tools[request.operation].permissions, granted);
    }
  }

  /** What becomes of a text that an exception carries: a failed result with it, unless it is blank. */
  ghost predicate FailsWith(outcome: Outcome, text: string, stage: Option<string>) {
    if Blank(text) then outcome.Raised? else outcome == Returned(Result(false, None, Some(text), stage))
  }

  /** What a dispatch gives back, case by case. A provider's response is the payload, and a tool's result
      is the tool's own; every failure carries the text and the stage it came from. */
  lemma DispatchTells(r: Registries, request: Request, granted: set<string>)
    requires BuildsResults(r)
    ensures request.target == Target.Provider ==>
      var (outcome, ran) := DispatchRequest(r, request, granted);
      if request.operation !in r.providers then !ran && FailsWith(outcome, "Not registered.", None)
      else
        && ran
        && match r.providers[request.operation].invoke(request.payload)
           case Response(payload) => outcome == Returned(Result(true, Some(payload), None, None))
           case InvokeFailed(exn) => FailsWith(outcome, exn.text, None)
    ensures request.target == Target.Tool ==>
      var (outcome, ran) := DispatchRequest(r, request, granted);
      if request.operation !in r.tools then !ran && FailsWith(outcome, "Not registered.", None)
      else if exists p :: p in granted && !WellFormedPermission(p) then
        !ran && FailsWith(outcome, "Invalid permission.", Some("permission_check"))
      else
        var tool := r.tools[request.operation];
        match tool.validate(request.payload)
        case Broke(exn) => !ran && outcome == Raised(exn)
        case Rejected(text) => !ran && FailsWith(outcome, text, Some("validate"))
        case Accepted =>
          if exists p :: p in tool.permissions && p !in granted then
            !ran && FailsWith(outcome, "Missing required permissions.", Some("permission_check"))
          else
            && ran
            && match tool.execute(request.payload)
               case Finished(result) => outcome == Returned(result)
               case Failed(exn) => FailsWith(outcome, exn.text, Some("execute"))
  {
    ConstantsSpeak();
    if request.target == Target.Tool && request.operation in r.tools {
      NothingMissing(r.tools[request.operation].permissions, granted);
    }
  }

  /** A tool's body runs exactly when the tool is registered, every permission handed over is
      well formed, the payload is valid, and the declared permissions are covered. */
  lemma BodyRunsWhenCovered(r: Registries, request: Request, granted: set<string>)
    requires request.target == Target.Tool
    ensures DispatchRequest(r, request, granted).1
       <==> && request.operation in r.tools && AllWellFormed(granted)
            && r.tools[request.operation].validate(request.payload).Accepted?
            && r.tools[request.operation].permissions <= granted
  {
    if request.operation in r.tools {
      NothingMissing(r.tools[request.operation].permissions, granted);
    }
  }
}

/** The authorization engine's decision. */
module Authorization {
  import opened Kernel
  import opened ExecutionTypes
  import opened Permissions
  import opened Dispatch

  /** A decision: a denial names its reason. */
  datatype Decision = Granted(permissions: set<string>) | Denied(reason: string)

  datatype Event = AuthorizationGranted(requestId: string, permissions: set<string>)
                 | AuthorizationDenied(requestId: string, reason: string)

  datatype AuditRecord = AuditRecord(subject: string, allowed: bool, reason: string)

  function Required(r: Registries, target: Target, operation: string): set<string> {
    if target == Target.Tool && operation in r.tools then r.tools[operation].permissions else {}
  }

  function Authorize(r: Registries, target: Target, operation: string, claimed: set<string>): Decision {
    if Missing(Required(r, target, operation), claimed) != {} then Denied(MISSING) else Granted(claimed)
  }

  function Check(r: Registries, request: Request, claimed: set<string>): Decision {
    if !AllWellFormed(claimed) then Denied(MALFORMED)
    else Authorize(r, request.target, request.operation, claimed)
  }

  /** Granted exactly when every claim is well formed and a registered tool's permissions are covered, and
      then what is granted is what was claimed; a denial says which of the two is wanting. */
  lemma GrantedMeansCovered(r: Registries, request: Request, claimed: set<string>)
    ensures Check(r, request, claimed).Granted?
       <==> && AllWellFormed(claimed)
            && (request.target == Target.Tool && request.operation in r.tools ==>
                  r.tools[request.operation].permissions <= claimed)
    ensures Check(r, request, claimed).Granted? ==> Check(r, request, claimed).permissions == claimed
    ensures Check(r, request, claimed).Denied? ==>
              && !Blank(Check(r, request, claimed).reason)
              && Check(r, request, claimed).reason
                 == if exists p :: p in claimed && !WellFormedPermission(p) then "Invalid permission."
                    else "Missing required permissions."
  {
    ConstantsSpeak();
    NothingMissing(Required(r, request.target, request.operation), claimed);
  }

  class AuthorizationEngine {
    const registries: Registries
    var published: seq<Event>
    var audited: seq<AuditRecord>

    constructor (registries: Registries)
      ensures this.registries == registries && published == [] && audited == []
    {
      this.registries := registries;
      this.published := [];
      this.audited := [];
    }

    /** One event and one audit record per check, both saying what was decided. */
    method CheckRequest(request: Request, claimed: set<string>) returns (decision: Decision)
      modifies this
      ensures decision == Check(registries, request, claimed)
      ensures published == old(published) + [match decision
          case Granted(permissions) => AuthorizationGranted(request.requestId, permissions)
          case Denied(reason) => AuthorizationDenied(request.requestId, reason)]
      ensures audited == old(audited) + [AuditRecord(request.requestId, decision.Granted?,
          if decision.Granted? then "" else decision.reason)]
    {
      if !AllWellFormed(claimed) {
        decision := Denied(MALFORMED);
        published := published + [AuthorizationDenied(request.requestId, decision.reason)];
        Audit(request, decision);
        return;
      }
      decision := Authorize(registries, request.target, request.operation, claimed);
      if decision.Granted? {
        published := published + [AuthorizationGranted(request.requestId, decision.permissions)];
      } else {
        published := published + [AuthorizationDenied(request.requestId, decision.reason)];
      }
      Audit(request, decision);
    }

    method Audit(request: Request, decision: Decision)
      modifies this`audited
      ensures audited == old(audited) + [AuditRecord(request.requestId, decision.Granted?,
          if decision.Granted? then "" else decision.reason)]
    {
      audited := audited + [AuditRecord(request.requestId, decision.Granted?,
          if decision.Granted? then "" else decision.reason)];
    }
  }
}

/** The execution engine: one request from start event to terminal event. */
module ExecutionEngines {
  import opened Kernel
  import opened ExecutionTypes
  import opened Permissions
  import opened Dispatch
  import Authorization

  /** What an authorizer answers: granted, denied with a reason or without, or an exception. */
  datatype Answer = Allow | Deny(reason: Option<string>) | Throw(exn: Exn)

  /** No authorizer, the kernel's own over some registries, or any other. */
  datatype Authorizer =
    | Nobody
    | KernelAuthorizer(registries: Registries)
    | Custom(check: (Request, set<string>) -> Answer)

  datatype Event =
    | Started(requestId: string, target: Target, operation: string)
    | Completed(requestId: string, target: Target, operation: string)
    | FailedEvent(requestId: string, target: Target, operation: string, error: string, stage: Option<string>)

  /** Everything one call of `execute` did. */
  datatype Report = Report(outcome: Outcome, events: seq<Event>, bodies: nat)

  function Ask(authorizer: Authorizer, request: Request, claimed: set<string>): Answer
    requires !authorizer.Nobody?
  {
    match authorizer
    case KernelAuthorizer(registries) =>
      var decision := Authorization.Check(registries, request, claimed);
      if decision.Granted? then Allow else Deny(Some(decision.reason))
    case Custom(check) => check(request, claimed)
  }

  /** `reason or "Authorization denied."` */
  function DenialText(reason: Option<string>): string {
    if reason.None? || reason.value == "" then "Authorization denied." else reason.value
  }

  function Terminal(request: Request, result: Result): Event {
    if result.success then Completed(request.requestId, request.target, request.operation)
    else FailedEvent(request.requestId, request.target, request.operation,
                     if result.error.Some? then result.error.value else "", result.stage)
  }

  function Finish(request: Request, outcome: Outcome, bodies: nat): Report {
    var started := Started(request.requestId, request.target, request.operation);
    match outcome
    case Raised(_) => Report(outcome, [started], bodies)
    case Returned(result) => Report(outcome, [started, Terminal(request, result)], bodies)
  }

  function Execute(authorizer: Authorizer, r: Registries, request: Request, claimed: set<string>): Report {
    if authorizer.Nobody? then
      var (outcome, ran) := DispatchRequest(r, request, {});
      Finish(request, outcome, if ran then 1 else 0)
    else
      match Ask(authorizer, request, claimed)
      case Throw(exn) => Finish(request, Raised(exn), 0)
      case Deny(reason) => Finish(request, Build(Failure(DenialText(reason), Some("authorization"))), 0)
      case Allow =>
        var (outcome, ran) := DispatchRequest(r, request, claimed);
        Finish(request, outcome, if ran then 1 else 0)
  }

  // ----- what a call guarantees -----

  /** Whether every exception text and denial reason met on the way can become a result. */
  predicate EveryoneSpeaks(authorizer: Authorizer, r: Registries, request: Request, claimed: set<string>) {
    if authorizer.Nobody? then Speaks(r, request, {})
    else
      match Ask(authorizer, request, claimed)
      case Throw(_) => false
      case Deny(reason) => reason.Some? && reason.value != "" ==> !Blank(reason.value)
      case Allow => Speaks(r, request, claimed)
  }

  lemma DenialSpeaks(reason: Option<string>)
    ensures !Blank(DenialText(reason))
       <==> (reason.Some? && reason.value != "" ==> !Blank(reason.value))
  {
    assert "Authorization denied."[0] == 'A';
  }

  /** A call publishes its started event first. It returns exactly when everyone speaks, and then one
      terminal event follows that says what was returned; otherwise it raises without a terminal event. */
  lemma ReturnsExactlyWhenEveryoneSpeaks(
      authorizer: Authorizer, r: Registries, request: Request, claimed: set<string>)
    requires BuildsResults(r)
    ensures var report := Execute(authorizer, r, request, claimed);
      && (report.outcome.Returned? <==> EveryoneSpeaks(authorizer, r, request, claimed))
      && report.events != []
      && report.events[..1] == [Started(request.requestId, request.target, request.operation)]
      && report.events[1..] == (if report.outcome.Returned? then [Terminal(request, report.outcome.result)] else [])
      && (report.outcome.Returned? ==> WellFormed(report.outcome.result))
  {
    if authorizer.Nobody? {
      DispatchReturns(r, request, {});
    } else {
      match Ask(authorizer, request, claimed)
      case Throw(_) =>
      case Deny(reason) =>
        DenialSpeaks(reason);
      case Allow =>
        DispatchReturns(r, request, claimed);
    }
  }

  /** What a call gives back and the terminal event it publishes. Without an authorizer the outcome is
      that of a dispatch with no permissions, with an allowing one that of a dispatch with the caller's
      claims; a denial fails with its reason, and the terminal event repeats the result. */
  lemma CallTells(authorizer: Authorizer, r: Registries, request: Request, claimed: set<string>)
    ensures var report := Execute(authorizer, r, request, claimed);
      && (authorizer.Nobody? ==> report.outcome == DispatchRequest(r, request, {}).0)
      && (!authorizer.Nobody? ==>
            match Ask(authorizer, request, claimed)
            case Allow => report.outcome == DispatchRequest(r, request, claimed).0
            case Throw(exn) => report.outcome == Raised(exn)
            case Deny(reason) =>
              FailsWith(report.outcome,
                        if reason.None? || reason.value == "" then "Authorization denied." else reason.value, Some("authorization")))
      && (report.outcome.Returned? ==>
            var result := report.outcome.result;
            |report.events| == 2
            && (result.success ==> report.events[1] == Completed(request.requestId, request.target, request.operation))
            && (!result.success && result.error.Some? ==>
                  report.events[1]
                  == FailedEvent(request.requestId, request.target, request.operation, result.error.value, result.stage)))
    ensures authorizer.KernelAuthorizer? ==>
              var decision := Authorization.Check(authorizer.registries, request, claimed);
              && (decision.Granted? <==> Ask(authorizer, request, claimed) == Allow)
              && (decision.Denied? ==> Ask(authorizer, request, claimed) == Deny(Some(decision.reason)))
  {
  }

  const SILENT := Tool.Tool({}, payload => Accepted, payload => Failed(Exn("")))

  /** A tool that raises an exception with an empty text: its body ran, but the call raises and the
      started event has no terminal event after it. */
  lemma SilentExceptionLosesTerminalEvent(request: Request)
    requires request.target == Target.Tool
    ensures var report := Execute(Nobody, Registries(map[request.operation := SILENT], map[]), request, {});
      report.outcome.Raised? && report.bodies == 1
      && report.events == [Started(request.requestId, request.target, request.operation)]
  {
    var r := Registries(map[request.operation := SILENT], map[]);
    NothingMissing({}, {});
    assert RunPipeline(SILENT, request.payload, {}) == (Build(Failure("", Some("execute"))), true);
    assert !WellFormed(Failure("", Some("execute")));
  }

  /** A denial never reaches the dispatcher; without an authorizer only permission-free tools run; and
      a body runs at most once, with the tool's declared permissions covered by the caller's claims. */
  lemma BodyNeedsPermissions(authorizer: Authorizer, r: Registries, request: Request, claimed: set<string>)
    requires request.target == Target.Tool
    ensures var report := Execute(authorizer, r, request, claimed);
      && report.bodies <= 1
      && (report.bodies == 1
          <==> && request.operation in r.tools
               && r.tools[request.operation].validate(request.payload).Accepted?
               && (if authorizer.Nobody? then r.tools[request.operation].permissions == {}
                   else Ask(authorizer, request, claimed).Allow? && AllWellFormed(claimed)
                        && r.tools[request.operation].permissions <= claimed))
  {
    BodyRunsWhenCovered(r, request, {});
    BodyRunsWhenCovered(r, request, claimed);
  }

  /** What the kernel's authorizer grants, the dispatcher and the pipeline do not refuse for want of
      permissions: only an unknown tool or an invalid payload still stops the body. */
  lemma GrantImpliesLaterChecksPass(r: Registries, request: Request, claimed: set<string>)
    requires request.target == Target.Tool && Authorization.Check(r, request, claimed).Granted?
    ensures AllWellFormed(claimed)
    ensures request.operation in r.tools ==> Missing(r.tools[request.operation].permissions, claimed) == {}
    ensures Execute(KernelAuthorizer(r), r, request, claimed).bodies == 1
       <==> request.operation in r.tools && r.tools[request.operation].validate(request.payload).Accepted?
  {
    Authorization.GrantedMeansCovered(r, request, claimed);
    BodyNeedsPermissions(KernelAuthorizer(r), r, request, claimed);
  }

  /** Over the kernel's authorizer every denial is an orderly failure at the authorization stage. */
  lemma KernelDenialIsOrderly(r: Registries, s: Registries, request: Request, claimed: set<string>)
    requires Authorization.Check(s, request, claimed).Denied?
    ensures var report := Execute(KernelAuthorizer(s), r, request, claimed);
      && report.bodies == 0
      && report.outcome.Returned?
      && !report.outcome.result.success && report.outcome.result.stage == Some("authorization")
      && report.outcome.result.error == Some(Authorization.Check(s, request, claimed).reason)
  {
    Authorization.GrantedMeansCovered(s, request, claimed);
  }

  // ----- the engine as an object -----

  class ExecutionEngine {
    const registries: Registries
    const authorizer: Authorizer
    var published: seq<Event>
    /** How many tool and provider bodies ran. */
    var bodies: nat

    constructor (registries: Registries, authorizer: Authorizer)
      ensures this.registries == registries && this.authorizer == authorizer && published == [] && bodies == 0
    {
      this.registries := registries;
      this.authorizer := authorizer;
      this.published := [];
      this.bodies := 0;
    }

    method Run(request: Request, claimed: set<string>) returns (outcome: Outcome)
      modifies this
      ensures var report := Execute(authorizer, registries, request, claimed);
        outcome == report.outcome && published == old(published) + report.events && bodies == old(bodies) + report.bodies
    {
      published := published + [Started(request.requestId, request.target, request.operation)];
      var effective: set<string> := {};
      if !authorizer.Nobody? {
        var answer := Ask(authorizer, request, claimed);
        match answer {
          case Throw(exn) =>
            return Raised(exn);
          case Deny(reason) =>
            outcome := Build(Failure(DenialText(reason), Some("authorization")));
            if outcome.Returned? {
              PublishTerminal(request, outcome.result);
            }
            return;
          case Allow =>
            effective := claimed;
        }
      }
      var (dispatched, ran) := DispatchRequest(registries, request, effective);
      bodies := bodies + if ran then 1 else 0;
      outcome := dispatched;
      if outcome.Returned? {
        PublishTerminal(request, outcome.result);
      }
    }

    method PublishTerminal(request: Request, result: Result)
      modifies this`published
      ensures published == old(published) + [Terminal(request, result)]
    {
      if result.success {
        published := published + [Completed(request.requestId, request.target, request.operation)];
      } else {
        var error := if result.error.Some? then result.error.value else "";
        published := published + [FailedEvent(request.requestId, request.target, request.operation, error, result.stage)];
      }
    }
  }
}
