/**
 * agent/utils.py: the deletion tools the agents call, and `run_with_backoff`, the streaming
 * wrapper around the runner that retries rate-limited attempts.
 */
module AgentUtils {
  import opened Wrappers
  import opened Content
  import opened Runner
  import opened Executor
  import opened ToolCtx
  import opened Gateway

  /**
   * `ask_for_deletion_confirmation`, the always-confirm gateway the agents use: without an
   * answer from the operator it previews and asks; once confirmed it calls the executor with
   * this call's `dry_run`; once denied it does nothing.
   */
  method AskForDeletionConfirmation(ctx: ToolContext, db: Database, dbPath: string, table: string,
                                    filters: FilterMap, limit: Option<int> := None,
                                    dryRun: bool := true)
    returns (out: GatewayOutcome)
    modifies ctx`requests, db`tables, db`log
    ensures var e := AlwaysConfirm(db.behaviour, old(db.tables), ctx.toolConfirmation, dbPath, table,
                                   filters, limit, dryRun, false);
      && db.log == old(db.log) + e.exchanges
      && db.tables == e.tables
      && ctx.requests == old(ctx.requests) + e.request.ToSeq()
      && out == e.outcome
  {
    if ctx.toolConfirmation.None? {
      var dry := db.DeleteRecordsByFilter(ExecCall(dbPath, table, Some(filters), limit, true));
      if dry.Failed? {
        return Raised(ExecutorError(dry.error));
      }
      if dry.result.previewCount.None? {
        return Raised(KeyError("preview_count"));
      }
      var n := dry.result.previewCount.value;
      ctx.RequestConfirmation(AskHint(n, table), ExecCall(dbPath, table, Some(filters), limit, dryRun));
      out := Returned(Decision(Pending, PendingMessage(n, table), None, None));
    } else if ctx.toolConfirmation.value {
      var result := db.DeleteRecordsByFilter(ExecCall(dbPath, table, Some(filters), limit, dryRun));
      out := AskApproved(table, result);
    } else {
      out := Returned(Decision(Denied, AskDeniedMessage(table), None, None));
    }
  }

  /**
   * `decide_and_perform_delete_records`, the threshold-gated gateway (unused by the agents):
   * it always previews first, deletes at once when at most `Threshold` records are candidates,
   * and otherwise asks, deletes once confirmed, or cancels once denied. The log line that
   * breaks it as written is left out (see Gateway.ThresholdGatedAsWritten).
   */
  method DecideAndPerformDeleteRecords(dbPath: string, table: string, ctx: ToolContext, db: Database,
                                       filters: Option<FilterMap> := None, limit: Option<int> := None,
                                       dryRun: bool := true)
    returns (out: GatewayOutcome)
    modifies ctx`requests, db`tables, db`log
    ensures var e := ThresholdGated(db.behaviour, old(db.tables), ctx.toolConfirmation, dbPath, table,
                                    filters, limit);
      && db.log == old(db.log) + e.exchanges
      && db.tables == e.tables
      && ctx.requests == old(ctx.requests) + e.request.ToSeq()
      && out == e.outcome
  {
    var commit := ExecCall(dbPath, table, filters, limit, false);
    ghost var log0 := db.log;
    var dry := db.DeleteRecordsByFilter(ExecCall(dbPath, table, filters, limit, true));
    ghost var dryLog := db.log;
    if dry.Failed? {
      return Raised(ExecutorError(dry.error));
    }
    var potential := Candidates(dry.result);
    if potential <= Threshold {
      var realResult := db.DeleteRecordsByFilter(commit);
      assert db.log == log0 + [dryLog[|log0|], Exchange(commit, realResult)];
      return ThresholdApproved(potential, table, realResult);
    }
    if ctx.toolConfirmation.None? {
      ctx.RequestConfirmation(ThresholdHint(potential, table), commit);
      return Returned(Decision(Pending, PendingMessage(potential, table), None, None));
    }
    if ctx.toolConfirmation.value {
      var result := db.DeleteRecordsByFilter(commit);
      assert db.log == log0 + [dryLog[|log0|], Exchange(commit, result)];
      out := ThresholdApproved(potential, table, result);
    } else {
      out := Returned(Decision(Denied, ThresholdDeniedMessage(potential, table), None, None));
    }
  }

  /** How a `run_with_backoff` stream ends: normally, by an error it re-raises, or by the
      `RuntimeError("Max retries exceeded for API rate limit.")` after the last retry. */
  datatype StreamEnd = Finished | Propagated(error: Exception) | RetriesExhausted

  /** The events a wrapper invocation yielded, how it ended, and how many runner calls it made. */
  datatype BackoffRun = BackoffRun(yielded: seq<Event>, end: StreamEnd, calls: nat)

  /** The events of `n` successive attempts from ordinal `from`, concatenated. */
  function Streamed(service: Service, call: RunCall, from: nat, n: nat): seq<Event>
    decreases n
  {
    if n == 0 then [] else service(call, from).events + Streamed(service, call, from + 1, n - 1)
  }

  /** The attempt with ordinal `k` failed with a rate-limit error. */
  predicate RateLimitedAt(service: Service, call: RunCall, k: nat) {
    var f := service(call, k).failure;
    f.Some? && IsRateLimit(f.value)
  }

  /**
   * What `run_with_backoff` does from retry counter `attempt` on: each attempt restarts the
   * stream, and what it yielded before failing stays yielded; a 429 counts one more attempt,
   * any other error ends the stream, and after `maxRetries` rate-limited attempts it gives up.
   */
  function Backoff(service: Service, call: RunCall, maxRetries: int, start: nat, attempt: nat): (run: BackoffRun)
    decreases if attempt < maxRetries then maxRetries - attempt else 0
  {
    if attempt >= maxRetries then BackoffRun([], RetriesExhausted, 0)
    else
      var a := service(call, start + attempt);
      if a.failure.None? then BackoffRun(a.events, Finished, 1)
      else if IsRateLimit(a.failure.value) then
        var rest := Backoff(service, call, maxRetries, start, attempt + 1);
        BackoffRun(a.events + rest.yielded, rest.end, rest.calls + 1)
      else BackoffRun(a.events, Propagated(a.failure.value), 1)
  }

  /**
   * Against a service that rate-limits every attempt, the same call is sent once per remaining
   * retry before the run gives up: a resumed turn's message is resent after every 429.
   */
  lemma {:induction false} BackoffResendsOnRateLimit(service: Service, call: RunCall, maxRetries: int,
                                                     start: nat, attempt: nat)
    requires forall k: nat :: RateLimitedAt(service, call, k)
    ensures Backoff(service, call, maxRetries, start, attempt).calls
              == (if attempt < maxRetries then maxRetries - attempt else 0)
    ensures Backoff(service, call, maxRetries, start, attempt).end == RetriesExhausted
    decreases if attempt < maxRetries then maxRetries - attempt else 0
  {
    if attempt < maxRetries {
      assert RateLimitedAt(service, call, start + attempt);
      BackoffResendsOnRateLimit(service, call, maxRetries, start, attempt + 1);
    }
  }

  /** A run from retry counter `attempt` on, after `done` calls that yielded `prefix`. */
  function Continued(prefix: seq<Event>, done: nat, rest: BackoffRun): BackoffRun {
    BackoffRun(prefix + rest.yielded, rest.end, done + rest.calls)
  }

  /** One attempt of the loop: how the whole run continues after it. */
  lemma BackoffAdvance(service: Service, call: RunCall, maxRetries: int, start: nat, attempt: nat,
                       yielded: seq<Event>)
    requires attempt < maxRetries
    requires Backoff(service, call, maxRetries, start, 0)
      == Continued(yielded, attempt, Backoff(service, call, maxRetries, start, attempt))
    ensures var a := service(call, start + attempt);
      var whole := Backoff(service, call, maxRetries, start, 0);
      && (a.failure.None? ==> whole == BackoffRun(yielded + a.events, Finished, attempt + 1))
      && (a.failure.Some? && !IsRateLimit(a.failure.value) ==>
            whole == BackoffRun(yielded + a.events, Propagated(a.failure.value), attempt + 1))
      && (a.failure.Some? && IsRateLimit(a.failure.value) ==>
            whole == Continued(yielded + a.events, attempt + 1, Backoff(service, call, maxRetries, start, attempt + 1)))
  {
    var a := service(call, start + attempt);
    var rest := Backoff(service, call, maxRetries, start, attempt + 1);
    if a.failure.None? {
      assert yielded + a.events + [] == yielded + a.events;
    } else if IsRateLimit(a.failure.value) {
      assert yielded + (a.events + rest.yielded) == (yielded + a.events) + rest.yielded;
    }
  }

  /** `async for event in runner.run_async(...): yield event`: the attempt's events, in order,
      after those already yielded. */
  method YieldAll(yielded: seq<Event>, events: seq<Event>) returns (out: seq<Event>)
    ensures out == yielded + events
  {
    out := yielded;
    for i := 0 to |events|
      invariant out == yielded + events[..i]
    {
      out := out + [events[i]];
    }
    assert events[..|events|] == events;
  }

  /** `run_with_backoff(runner, prompt, max_retries=3, ...)` as the loop it is. */
  method RunWithBackoff(service: Service, call: RunCall, start: nat, maxRetries: int := 3)
    returns (run: BackoffRun)
    ensures run == Backoff(service, call, maxRetries, start, 0)
  {
    var attempt: nat := 0;
    var yielded: seq<Event> := [];
    assert [] + Backoff(service, call, maxRetries, start, 0).yielded == Backoff(service, call, maxRetries, start, 0).yielded;
    while attempt < maxRetries
      invariant attempt == 0 || attempt <= maxRetries
      invariant Backoff(service, call, maxRetries, start, 0)
        == Continued(yielded, attempt, Backoff(service, call, maxRetries, start, attempt))
      decreases maxRetries - attempt
    {
      var a := service(call, start + attempt);
      BackoffAdvance(service, call, maxRetries, start, attempt, yielded);
      yielded := YieldAll(yielded, a.events);
      if a.failure.None? {
        return BackoffRun(yielded, Finished, attempt + 1);
      }
      if !IsRateLimit(a.failure.value) {
        return BackoffRun(yielded, Propagated(a.failure.value), attempt + 1);
      }
      attempt := attempt + 1;
    }
    assert yielded + [] == yielded;
    run := BackoffRun(yielded, RetriesExhausted, attempt);
  }

  /**
   * The retry policy: at most `maxRetries` runner calls (none when `maxRetries <= 0`, which
   * raises at once), every call but the last rate-limited, the last one deciding the end, and
   * the events of every attempt yielded in order, including those of attempts cut short by a 429.
   */
  lemma {:induction false} BackoffPolicy(service: Service, call: RunCall, maxRetries: int, start: nat, attempt: nat)
    decreases if attempt < maxRetries then maxRetries - attempt else 0
    ensures var run := Backoff(service, call, maxRetries, start, attempt);
      && (attempt < maxRetries ==> 1 <= run.calls <= maxRetries - attempt)
      && (attempt >= maxRetries ==> run == BackoffRun([], RetriesExhausted, 0))
      && run.yielded == Streamed(service, call, start + attempt, run.calls)
      && (forall k :: start + attempt <= k < start + attempt + run.calls - 1 ==> RateLimitedAt(service, call, k))
      && (run.calls > 0 ==>
            var f := service(call, start + attempt + run.calls - 1).failure;
            match run.end
            case Finished => f.None?
            case Propagated(x) => f == Some(x) && !IsRateLimit(x)
            case RetriesExhausted => f.Some? && IsRateLimit(f.value) && attempt + run.calls == maxRetries)
  {
    if attempt < maxRetries {
      var a := service(call, start + attempt);
      if a.failure.Some? && IsRateLimit(a.failure.value) {
        BackoffPolicy(service, call, maxRetries, start, attempt + 1);
        assert RateLimitedAt(service, call, start + attempt);
      }
    }
  }
}
