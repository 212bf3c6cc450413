/**
 * utils.py: the older copy of the deletion tools (its always-confirm tool defaults `limit` to 10
 * and also looks up `preview_path` when logging the dry run) and the `run_with_backoff` that
 * trims the runner's history before retrying `run_debug` on rate limits.
 */
module RootUtils {
  import opened Wrappers
  import opened Content
  import opened Runner
  import opened Executor
  import opened ToolCtx
  import opened Gateway

  /** `ask_for_deletion_confirmation` of utils.py; `limit` defaults to 10. */
  method AskForDeletionConfirmation(ctx: ToolContext, db: Database, dbPath: string, table: string,
                                    filters: FilterMap, limit: Option<int> := Some(10),
                                    dryRun: bool := true)
    returns (out: GatewayOutcome)
    modifies ctx`requests, db`tables, db`log
    ensures var e := AlwaysConfirm(db.behaviour, old(db.tables), ctx.toolConfirmation, dbPath, table,
                                   filters, limit, dryRun, true);
      && db.log == old(db.log) + e.exchanges
      && db.tables == e.tables
      && ctx.requests == old(ctx.requests) + e.request.ToSeq()
      && out == e.outcome
  {
    if ctx.toolConfirmation.None? {
      var dry := db.DeleteRecordsByFilter(ExecCall(dbPath, table, Some(filters), limit, true));
      if dry.Failed? {
        return Raised(ExecutorError(dry.error));
      }
      // the log line formats both `preview_count` and `preview_path`
      if dry.result.previewCount.None? {
        return Raised(KeyError("preview_count"));
      }
      if dry.result.previewPath.None? {
        return Raised(KeyError("preview_path"));
      }
      var n := dry.result.previewCount.value;
      ctx.RequestConfirmation(AskHint(n, table), ExecCall(dbPath, table, Some(filters), limit, dryRun));
      out := Returned(Decision(Pending, PendingMessage(n, table), None, None));
    } else if ctx.toolConfirmation.value {
      var result := db.DeleteRecordsByFilter(ExecCall(dbPath, table, Some(filters), limit, dryRun));
      out := AskApproved(table, result);
    } else {
      out := Returned(Decision(Denied, AskDeniedMessage(table), None, None));
    }
  }

  /** `decide_and_perform_delete_records` of utils.py, the same threshold-gated policy. */
  method DecideAndPerformDeleteRecords(dbPath: string, table: string, ctx: ToolContext, db: Database,
                                       filters: Option<FilterMap> := None, limit: Option<int> := None,
                                       dryRun: bool := true)
    returns (out: GatewayOutcome)
    modifies ctx`requests, db`tables, db`log
    ensures var e := ThresholdGated(db.behaviour, old(db.tables), ctx.toolConfirmation, dbPath, table,
                                    filters, limit);
      && db.log == old(db.log) + e.exchanges
      && db.tables == e.tables
      && ctx.requests == old(ctx.requests) + e.request.ToSeq()
      && out == e.outcome
  {
    var commit := ExecCall(dbPath, table, filters, limit, false);
    ghost var log0 := db.log;
    var dry := db.DeleteRecordsByFilter(ExecCall(dbPath, table, filters, limit, true));
    ghost var dryLog := db.log;
    if dry.Failed? {
      return Raised(ExecutorError(dry.error));
    }
    var potential := Candidates(dry.result);
    if potential <= Threshold {
      var realResult := db.DeleteRecordsByFilter(commit);
      assert db.log == log0 + [dryLog[|log0|], Exchange(commit, realResult)];
      return ThresholdApproved(potential, table, realResult);
    }
    if ctx.toolConfirmation.None? {
      ctx.RequestConfirmation(ThresholdHint(potential, table), commit);
      return Returned(Decision(Pending, PendingMessage(potential, table), None, None));
    }
    if ctx.toolConfirmation.value {
      var result := db.DeleteRecordsByFilter(commit);
      assert db.log == log0 + [dryLog[|log0|], Exchange(commit, result)];
      out := ThresholdApproved(potential, table, result);
    } else {
      out := Returned(Decision(Denied, ThresholdDeniedMessage(potential, table), None, None));
    }
  }

  /** Longest history left untouched. */
  const HistoryLimit: nat := 15
  /** Number of most recent turns kept besides the first. */
  const KeptTurns: nat := 10

  /** `[history[0]] + history[-10:]`: the system instruction and the last ten turns. */
  function TrimmedHistory<T>(h: seq<T>): (r: seq<T>)
    requires |h| > HistoryLimit
    ensures |r| == KeptTurns + 1
    ensures r[0] == h[0]
    ensures forall i :: 1 <= i <= KeptTurns ==> r[i] == h[|h| - KeptTurns - 1 + i]
  {
    [h[0]] + h[|h| - KeptTurns..]
  }

  /** The history `run_with_backoff` leaves: trimmed when longer than 15 turns, else unchanged. */
  function HistoryAfter<T>(h: seq<T>): (r: seq<T>)
    ensures |r| <= HistoryLimit
    ensures |h| <= HistoryLimit ==> r == h
    ensures |h| > HistoryLimit ==> r == TrimmedHistory(h)
    ensures r != [] ==> h != [] && r[0] == h[0]
  {
    if |h| > HistoryLimit then TrimmedHistory(h) else h
  }

  /** Trimming only drops turns: nothing is invented or duplicated, the newest turn stays last,
      and a trimmed history is never trimmed again. */
  lemma HistoryAfterDropsOnly<T>(h: seq<T>)
    ensures multiset(HistoryAfter(h)) <= multiset(h)
    ensures h != [] ==> HistoryAfter(h)[|HistoryAfter(h)| - 1] == h[|h| - 1]
    ensures HistoryAfter(HistoryAfter(h)) == HistoryAfter(h)
  {
    if |h| > HistoryLimit {
      var cut := |h| - KeptTurns;
      assert h == [h[0]] + h[1..cut] + h[cut..];
      assert multiset(h) == multiset([h[0]]) + multiset(h[1..cut]) + multiset(h[cut..]);
    }
  }

  /** A runner whose `history` attribute (when it has one) the wrapper may trim. */
  class DebugRunner {
    var history: Option<seq<Message>>

    constructor (history: Option<seq<Message>>)
      ensures this.history == history
    {
      this.history := history;
    }
  }

  /** What one `run_debug` call gave: its result, or the exception it raised. */
  datatype Reply = Replied(result: seq<Event>) | Threw(error: Exception)

  /** How `run_with_backoff` ended: the first successful result, a re-raised error, or the
      `RuntimeError` after the last retry. */
  datatype RetryEnd = Value(result: seq<Event>) | Reraised(error: Exception) | MaxRetriesExceeded

  datatype RetryRun = RetryRun(end: RetryEnd, calls: nat)

  /** The retry loop from retry counter `attempt` on; the arguments `(prompt, **kwargs)` are
      forwarded unchanged to every call, so only the call's ordinal varies. */
  function Retry<C>(service: (C, nat) -> Reply, args: C, maxRetries: int, start: nat, attempt: nat): RetryRun
    decreases if attempt < maxRetries then maxRetries - attempt else 0
  {
    if attempt >= maxRetries then RetryRun(MaxRetriesExceeded, 0)
    else
      match service(args, start + attempt)
      case Replied(v) => RetryRun(Value(v), 1)
      case Threw(x) =>
        if IsRateLimit(x) then
          var rest := Retry(service, args, maxRetries, start, attempt + 1);
          RetryRun(rest.end, rest.calls + 1)
        else RetryRun(Reraised(x), 1)
  }

  /** The attempt with ordinal `k` raised a rate-limit error. */
  predicate ThrewRateLimit<C>(service: (C, nat) -> Reply, args: C, k: nat) {
    service(args, k).Threw? && IsRateLimit(service(args, k).error)
  }

  /** The retry policy of `run_with_backoff`: at most `maxRetries` calls of `run_debug`, each
      attempt but the last rate-limited, a success returned as is, any other error re-raised. */
  lemma {:induction false} RetryPolicy<C>(service: (C, nat) -> Reply, args: C, maxRetries: int, start: nat, attempt: nat)
    decreases if attempt < maxRetries then maxRetries - attempt else 0
    ensures var run := Retry(service, args, maxRetries, start, attempt);
      && (attempt < maxRetries ==> 1 <= run.calls <= maxRetries - attempt)
      && (attempt >= maxRetries ==> run == RetryRun(MaxRetriesExceeded, 0))
      && (forall k :: start + attempt <= k < start + attempt + run.calls - 1 ==> ThrewRateLimit(service, args, k))
      && (run.calls > 0 ==>
            var last := service(args, start + attempt + run.calls - 1);
            match run.end
            case Value(v) => last == Replied(v)
            case Reraised(x) => last == Threw(x) && !IsRateLimit(x)
            case MaxRetriesExceeded => ThrewRateLimit(service, args, start + attempt + run.calls - 1)
                                       && attempt + run.calls == maxRetries)
  {
    if attempt < maxRetries && ThrewRateLimit(service, args, start + attempt) {
      RetryPolicy(service, args, maxRetries, start, attempt + 1);
    }
  }

  /**
   * `run_with_backoff` of utils.py: trim the runner's history when it is longer than 15 turns,
   * then call `run_debug` until it returns, raises something other than a 429, or `maxRetries`
   * rate-limited attempts have been made.
   */
  method RunWithBackoff<C>(runner: DebugRunner, service: (C, nat) -> Reply, args: C, start: nat,
                           maxRetries: int := 3)
    returns (run: RetryRun)
    modifies runner`history
    ensures runner.history == if old(runner.history).Some? then Some(HistoryAfter(old(runner.history).value))
                              else None
    ensures run == Retry(service, args, maxRetries, start, 0)
  {
    if runner.history.Some? && |runner.history.value| > HistoryLimit {
      var h := runner.history.value;
      runner.history := Some([h[0]] + h[|h| - KeptTurns..]);
    }
    var attempt: nat := 0;
    while attempt < maxRetries
      invariant attempt == 0 || attempt <= maxRetries
      invariant var rest := Retry(service, args, maxRetries, start, attempt);
        Retry(service, args, maxRetries, start, 0) == RetryRun(rest.end, attempt + rest.calls)
      decreases maxRetries - attempt
    {
      var reply := service(args, start + attempt);
      if reply.Replied? {
        return RetryRun(Value(reply.result), attempt + 1);
      }
      if !IsRateLimit(reply.error) {
        return RetryRun(Reraised(reply.error), attempt + 1);
      }
      attempt := attempt + 1;
    }
    run := RetryRun(MaxRetriesExceeded, attempt);
  }
}
