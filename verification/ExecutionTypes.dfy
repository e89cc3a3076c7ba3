/** JSON values as Python's json module sees them. */
module Json {
  datatype Value =
    | Null
    | Bool(flag: bool)
    | Number(number: real)
    | Text(text: string)
    | Array(items: seq<Value>)
    | Object(fields: map<string, Value>)

  type Fields = map<string, Value>
}

/** The values passed between the execution engine and its callers. */
module ExecutionTypes {
  import opened Kernel
  import Json

  datatype Target = Tool | Provider

  datatype Request = Request(
    target: Target,
    operation: string,
    payload: Json.Fields,
    requestId: string)

  /** `stage` is the one metadata entry the kernel itself reads back. */
  datatype Result = Result(
    success: bool,
    payload: Option<Json.Fields>,
    error: Option<string>,
    stage: Option<string>)

  datatype Exn = Exn(text: string)

  /** What a call made: a result, or an exception that propagates. */
  datatype Outcome = Returned(result: Result) | Raised(exn: Exn)

  /** A failed result must name a non-blank error; a successful one must not name any. */
  predicate WellFormed(r: Result) {
    if r.success then r.error.None? else r.error.Some? && !Blank(r.error.value)
  }
}
