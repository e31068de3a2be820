/** Thrown errors and the `McpError` class with its `assertOrThrow` helper
    (src/utils/assertions.js).  A throw is modelled as an `Err` result. */
module Errors {
  import opened Base
  import opened JsValues

  /** The machine-readable codes the tool layer throws or reports. */
  datatype ErrorCode = BadInput | ToolNotFound | PromptNotFound | HsRiskStop | CertMissing | Unexpected
  {
    function Name(): (s: string)
      ensures |s| > 0
    {
      match this
      case BadInput => "BAD_INPUT"
      case ToolNotFound => "TOOL_NOT_FOUND"
      case PromptNotFound => "PROMPT_NOT_FOUND"
      case HsRiskStop => "HS_RISK_STOP"
      case CertMissing => "CERT_MISSING"
      case Unexpected => "UNEXPECTED"
    }
  }

  /** A thrown JavaScript error: its `name`, its `code` property (absent on
      plain `Error`s), its `message` and its `details` property. */
  datatype Exception = Exception(
    name: string,
    code: Option<ErrorCode>,
    message: string,
    details: Option<seq<(string, JsValue)>>)

  /** `new McpError(code, message, details)`; `details` defaults to `{}`. */
  function McpError(code: ErrorCode, message: string, details: seq<(string, JsValue)> := []): (e: Exception)
    ensures e.name == "McpError"
    ensures e.code == Some(code) && e.message == message
    ensures e.details == Some(details)
  {
    Exception("McpError", Some(code), message, Some(details))
  }

  /** An error without a `code` (`new Error(message)`, a `TypeError`, ...). */
  function PlainError(name: string, message: string): Exception {
    Exception(name, None, message, None)
  }

  datatype Result<+T> = Ok(value: T) | Err(error: Exception) {
    predicate IsFailure() {
      Err?
    }

    function PropagateFailure<U>(): Result<U>
      requires Err?
    {
      Err(error)
    }

    function Extract(): T
      requires Ok?
    {
      value
    }
  }

  /** A computation run only for its possible throw. */
  datatype Outcome = Pass | Fail(error: Exception) {
    predicate IsFailure() {
      Fail?
    }

    function PropagateFailure<U>(): Result<U>
      requires Fail?
    {
      Err(error)
    }
  }

  /** `assertOrThrow(condition, code, message, details = {})` */
  function AssertOrThrow(condition: bool, code: ErrorCode, message: string,
                         details: seq<(string, JsValue)> := []): (r: Outcome)
    ensures condition ==> r == Pass
    ensures !condition ==> r.Fail? && r.error.name == "McpError"
                           && r.error.code == Some(code) && r.error.message == message
                           && r.error.details == Some(details)
  {
    if condition then Pass else Fail(McpError(code, message, details))
  }
}
