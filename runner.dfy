/**
 * The agent runner seen from the retry wrappers: a call (`user_id`, `session_id`, the new
 * message and an optional `invocation_id`), the events one attempt streams before it ends or
 * fails, and the errors it can raise. The service behind the runner is a parameter: it answers
 * each attempt by the attempt's ordinal, since a rate limit depends on when a call is made.
 */
module Runner {
  import opened Wrappers
  import opened Content

  /** `google.genai.errors.ClientError`: its `code` and `status_code` attributes. */
  datatype ClientError = ClientError(code: Option<int>, statusCode: Option<int>)

  datatype Exception = ClientErr(error: ClientError) | OtherErr(kind: string)

  /** HTTP status of a rate-limit (quota) error: the one the wrappers retry. */
  const RateLimitCode: int := 429

  /** `getattr(e, "code", None) or getattr(e, "status_code", None)`: a missing or zero
      `code` falls back to `status_code`. */
  function ErrorCode(e: ClientError): (c: Option<int>)
    ensures e.code.Some? && e.code.value != 0 ==> c == e.code
    ensures e.code.None? || e.code.value == 0 ==> c == e.statusCode
  {
    if e.code.Some? && e.code.value != 0 then e.code else e.statusCode
  }

  predicate IsRateLimit(x: Exception) {
    x.ClientErr? && ErrorCode(x.error) == Some(RateLimitCode)
  }

  datatype RunCall = RunCall(
    userId: string,
    sessionId: string,
    message: Message,
    invocationId: Option<string>)

  /** One `run_async` attempt: the events it yielded, then how it ended (`None`: normally). */
  datatype Attempt = Attempt(events: seq<Event>, failure: Option<Exception>)

  /** The answer of the service to a call, given the ordinal of that runner call. */
  type Service = (RunCall, nat) -> Attempt

  /** `n` copies of a call: the retries of one wrapper invocation. */
  function Repeat(call: RunCall, n: nat): (s: seq<RunCall>)
    ensures |s| == n
    ensures forall i :: 0 <= i < n ==> s[i] == call
  {
    if n == 0 then [] else Repeat(call, n - 1) + [call]
  }
}
