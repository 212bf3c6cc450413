/**
 * The deletion gateway shared by agent/utils.py and utils.py: the decision record the tools
 * return, their messages, and the two confirmation policies as functions of the executor's
 * behaviour, the tables and the confirmation state. The tool methods in AgentUtils and
 * RootUtils are proved to have exactly the effect these functions describe.
 */
module Gateway {
  import opened Wrappers
  import opened Strings
  import opened Executor
  import opened ToolCtx

  datatype Status = Pending | Approved | Denied

  function StatusText(s: Status): string {
    match s
    case Pending => "pending"
    case Approved => "approved"
    case Denied => "denied"
  }

  /** The `deleted_count` entry: the executor's count, or (as written in one branch) its whole result. */
  datatype DeletedCount = Count(n: int) | WholeResult(result: ExecResult)

  /** `{status, message, deleted_count?, deleted_records_preview_path?}`. */
  datatype Decision = Decision(
    status: Status,
    message: string,
    deletedCount: Option<DeletedCount>,
    previewPath: Option<string>)

  /** The exceptions a gateway call can raise: a missing key in the executor's result,
      a type error, or whatever the executor itself raised. */
  datatype PyError = KeyError(key: string) | TypeError(detail: string) | ExecutorError(message: string)

  datatype GatewayOutcome = Returned(decision: Decision) | Raised(error: PyError)

  /** Everything one gateway call does: the executor calls it makes (with their answers), the
      tables it leaves, the confirmation request it records, and what it returns or raises. */
  datatype Effect = Effect(
    exchanges: seq<Exchange>,
    tables: Tables,
    request: Option<ConfirmationRequest>,
    outcome: GatewayOutcome)

  /** `threshold_deletion`: the most records the threshold-gated policy deletes unasked. */
  const Threshold: int := 10

  function AskHint(n: int, table: string): string {
    "Attempting to delete " + IntToString(n) + " records from " + table + ". Do you want to proceed?"
  }

  function ThresholdHint(n: int, table: string): string {
    "Attempting to delete " + IntToString(n) + " records from " + table
      + ". This exceeds the threshold of " + IntToString(Threshold) + ". Do you want to proceed?"
  }

  function PendingMessage(n: int, table: string): string {
    "Deletion of " + IntToString(n) + " records from " + table + " requires confirmation."
  }

  function ApprovedMessage(n: int, table: string): string {
    "Proceeding with deletion of " + IntToString(n) + " records from " + table + "."
  }

  function AskDeniedMessage(table: string): string {
    "Deletion of records from " + table + " has been cancelled by the user."
  }

  function ThresholdDeniedMessage(n: int, table: string): string {
    "Deletion of " + IntToString(n) + " records from " + table + " has been cancelled by the user."
  }

  /** The always-confirm gateway's answer after a confirmed call to the executor. */
  function AskApproved(table: string, answer: ExecAnswer): (out: GatewayOutcome)
    ensures out.Returned? <==> answer.Answered? && answer.result.deleted.Some?
    ensures out.Returned? ==>
      && out.decision.status == Approved
      && out.decision.deletedCount == Some(Count(answer.result.deleted.value))
      && out.decision.previewPath == Some(answer.result.previewPath.GetOr(""))
    // the executor's own error propagates; a result without `deleted` is a KeyError
    ensures answer.Failed? ==> out == Raised(ExecutorError(answer.error))
    ensures answer.Answered? && answer.result.deleted.None? ==> out == Raised(KeyError("deleted"))
  {
    match answer
    case Failed(e) => Raised(ExecutorError(e))
    case Answered(r) =>
      if r.deleted.None? then Raised(KeyError("deleted"))
      else Returned(Decision(Approved, ApprovedMessage(r.deleted.value, table),
                             Some(Count(r.deleted.value)), Some(r.previewPath.GetOr(""))))
  }

  /**
   * The always-confirm policy (`ask_for_deletion_confirmation`). `readsPreviewPath` is set for
   * the variant whose log line also looks up `preview_path` in the dry-run result.
   */
  function AlwaysConfirm(b: Behaviour, t: Tables, confirmation: Option<bool>, dbPath: string,
                         table: string, filters: FilterMap, limit: Option<int>, dryRun: bool,
                         readsPreviewPath: bool): (e: Effect)
    // at most one executor call, whose answer is the executor's and whose effect alone is kept
    ensures |e.exchanges| <= 1
    ensures e.exchanges != [] ==> e.exchanges[0].answer == b(e.exchanges[0].call, t).0
    ensures e.tables == if e.exchanges == [] then t else After(b, e.exchanges[0].call, t)
    // nothing is deleted unless the operator confirmed
    ensures confirmation != Some(true) ==> e.tables == t
    // no confirmation yet: a dry run with the caller's arguments, and a request whose payload
    // holds those arguments exactly
    ensures confirmation.None? ==>
      && |e.exchanges| == 1
      && e.exchanges[0].call == ExecCall(dbPath, table, Some(filters), limit, true)
    ensures confirmation.None? && e.outcome.Returned? ==>
      && e.request.Some?
      && e.request.value.payload == ExecCall(dbPath, table, Some(filters), limit, dryRun)
    ensures e.request.Some? ==> confirmation.None? && e.outcome.Returned?
    // no confirmation yet: pending exactly when the dry run answered with a `preview_count`
    // (and a `preview_path`, for the variant whose log line reads it); the request's hint
    // shows the previewed count
    ensures confirmation.None? ==>
      (e.outcome.Returned? <==>
        && e.exchanges[0].answer.Answered?
        && e.exchanges[0].answer.result.previewCount.Some?
        && (readsPreviewPath ==> e.exchanges[0].answer.result.previewPath.Some?))
    ensures confirmation.None? && e.exchanges[0].answer.Failed? ==>
      e.outcome == Raised(ExecutorError(e.exchanges[0].answer.error))
    ensures confirmation.None? && e.exchanges[0].answer.Answered? &&
            e.exchanges[0].answer.result.previewCount.None? ==>
      e.outcome == Raised(KeyError("preview_count"))
    ensures confirmation.None? && readsPreviewPath && e.exchanges[0].answer.Answered? &&
            e.exchanges[0].answer.result.previewCount.Some? &&
            e.exchanges[0].answer.result.previewPath.None? ==>
      e.outcome == Raised(KeyError("preview_path"))
    ensures e.request.Some? ==>
      && e.exchanges[0].answer.Answered? && e.exchanges[0].answer.result.previewCount.Some?
      && var n := e.exchanges[0].answer.result.previewCount.value;
      && e.request.value.hint == AskHint(n, table)
      && e.outcome == Returned(Decision(Pending, PendingMessage(n, table), None, None))
    // confirmed: one call with the same arguments and this call's dry_run
    ensures confirmation == Some(true) ==>
      && |e.exchanges| == 1
      && e.exchanges[0].call == ExecCall(dbPath, table, Some(filters), limit, dryRun)
      && e.outcome == AskApproved(table, e.exchanges[0].answer)
    // denied: no executor call, no request, denied without a count
    ensures confirmation == Some(false) ==>
      && e.exchanges == [] && e.request.None?
      && e.outcome == Returned(Decision(Denied, AskDeniedMessage(table), None, None))
    // the status tells which confirmation state the call saw
    ensures e.outcome.Returned? ==>
      && (e.outcome.decision.status == Pending <==> confirmation.None?)
      && (e.outcome.decision.status == Approved <==> confirmation == Some(true))
      && (e.outcome.decision.status != Approved ==> e.outcome.decision.deletedCount.None?)
  {
    match confirmation
    case None =>
      var call := ExecCall(dbPath, table, Some(filters), limit, true);
      var answer := b(call, t).0;
      var ex := [Exchange(call, answer)];
      (match answer
       case Failed(err) => Effect(ex, t, None, Raised(ExecutorError(err)))
       case Answered(r) =>
         if r.previewCount.None? then Effect(ex, t, None, Raised(KeyError("preview_count")))
         else if readsPreviewPath && r.previewPath.None? then
           Effect(ex, t, None, Raised(KeyError("preview_path")))
         else
           var n := r.previewCount.value;
           Effect(ex, t,
                  Some(ConfirmationRequest(AskHint(n, table),
                                           ExecCall(dbPath, table, Some(filters), limit, dryRun))),
                  Returned(Decision(Pending, PendingMessage(n, table), None, None))))
    case Some(true) =>
      var call := ExecCall(dbPath, table, Some(filters), limit, dryRun);
      var answer := b(call, t).0;
      Effect([Exchange(call, answer)], After(b, call, t), None, AskApproved(table, answer))
    case Some(false) =>
      Effect([], t, None, Returned(Decision(Denied, AskDeniedMessage(table), None, None)))
  }

  /**
   * A confirmation round trip of the always-confirm gateway: the first call only previews and
   * asks; the call the operator's answer resumes runs exactly the call the request showed when
   * confirmed, and nothing when refused. Over both calls at most one deletion reaches the
   * executor, and only when the caller passed `dry_run=False`.
   */
  lemma AlwaysConfirmRoundTrip(b: Behaviour, t: Tables, yes: bool, dbPath: string, table: string,
                               filters: FilterMap, limit: Option<int>, dryRun: bool,
                               readsPreviewPath: bool)
    ensures var e1 := AlwaysConfirm(b, t, None, dbPath, table, filters, limit, dryRun, readsPreviewPath);
      var e2 := AlwaysConfirm(b, e1.tables, Some(yes), dbPath, table, filters, limit, dryRun, readsPreviewPath);
      && e1.tables == t
      && e1.exchanges[0].call.dryRun
      && Destructive(e1.exchanges + e2.exchanges) == (if yes && !dryRun then 1 else 0)
      && (yes && e1.request.Some? ==> e2.exchanges[0].call == e1.request.value.payload)
      && e2.tables == (if yes then After(b, e2.exchanges[0].call, t) else t)
  {
    var e1 := AlwaysConfirm(b, t, None, dbPath, table, filters, limit, dryRun, readsPreviewPath);
    var e2 := AlwaysConfirm(b, e1.tables, Some(yes), dbPath, table, filters, limit, dryRun, readsPreviewPath);
    DestructiveAppend(e1.exchanges, e2.exchanges);
    assert Destructive(e1.exchanges) == 0;
  }

  /**
   * The gateway keeps no memory of an earlier confirmed call: two calls that both carry a yes
   * and `dry_run=False` delete twice, the second time on the tables the first one left.
   */
  lemma AlwaysConfirmTwiceDeletesTwice(b: Behaviour, t: Tables, dbPath: string, table: string,
                                       filters: FilterMap, limit: Option<int>, readsPreviewPath: bool)
    ensures var e1 := AlwaysConfirm(b, t, Some(true), dbPath, table, filters, limit, false, readsPreviewPath);
      var e2 := AlwaysConfirm(b, e1.tables, Some(true), dbPath, table, filters, limit, false, readsPreviewPath);
      && Destructive(e1.exchanges + e2.exchanges) == 2
      && e2.exchanges[0].call == e1.exchanges[0].call
      && e2.tables == After(b, e1.exchanges[0].call, After(b, e1.exchanges[0].call, t))
  {
    var e1 := AlwaysConfirm(b, t, Some(true), dbPath, table, filters, limit, false, readsPreviewPath);
    var e2 := AlwaysConfirm(b, e1.tables, Some(true), dbPath, table, filters, limit, false, readsPreviewPath);
    DestructiveAppend(e1.exchanges, e2.exchanges);
    assert Destructive(e1.exchanges) == 1 by { assert e1.exchanges[1..] == []; }
    assert Destructive(e2.exchanges) == 1 by { assert e2.exchanges[1..] == []; }
  }

  /**
   * A resumed call of the threshold-gated gateway does not reuse the preview the operator saw:
   * it runs a fresh dry run on the tables as they are now, and decides on that count.
   */
  lemma ThresholdGatedResumePreviewsAgain(b: Behaviour, t: Tables, t2: Tables, dbPath: string, table: string,
                                          filters: Option<FilterMap>, limit: Option<int>)
    ensures var e1 := ThresholdGated(b, t, None, dbPath, table, filters, limit);
      var e2 := ThresholdGated(b, t2, Some(true), dbPath, table, filters, limit);
      && e2.exchanges[0] == Exchange(e1.exchanges[0].call, b(e1.exchanges[0].call, t2).0)
      && (|e2.exchanges| == 2 <==> e2.exchanges[0].answer.Answered?)
  {
  }

  /** `potential_deletions`: the dry-run result's `delete_candidate` entry, 0 when absent. */
  function Candidates(r: ExecResult): int {
    r.deleteCandidate.GetOr(0)
  }

  /** The threshold-gated gateway's approved answer after a real deletion, as evidently intended:
      `deleted_count` is the executor's `deleted` entry, as in its confirmed branch. */
  function ThresholdApproved(potential: int, table: string, answer: ExecAnswer): (out: GatewayOutcome)
    ensures out.Returned? <==> answer.Answered? && answer.result.deleted.Some?
    ensures out.Returned? ==>
      && out.decision.status == Approved
      && out.decision.deletedCount == Some(Count(answer.result.deleted.value))
    ensures answer.Failed? ==> out == Raised(ExecutorError(answer.error))
    ensures answer.Answered? && answer.result.deleted.None? ==> out == Raised(KeyError("deleted"))
  {
    match answer
    case Failed(e) => Raised(ExecutorError(e))
    case Answered(r) =>
      if r.deleted.None? then Raised(KeyError("deleted"))
      else Returned(Decision(Approved, ApprovedMessage(potential, table), Some(Count(r.deleted.value)), None))
  }

  /** The under-threshold branch as written: `deleted_count` holds the whole result dictionary. */
  function ThresholdApprovedAsWritten(potential: int, table: string, answer: ExecAnswer): (out: GatewayOutcome)
    ensures out.Returned? <==> answer.Answered?
    ensures out.Returned? ==>
      out.decision.status == Approved && out.decision.deletedCount == Some(WholeResult(answer.result))
    ensures answer.Failed? ==> out == Raised(ExecutorError(answer.error))
  {
    match answer
    case Failed(e) => Raised(ExecutorError(e))
    case Answered(r) =>
      Returned(Decision(Approved, ApprovedMessage(potential, table), Some(WholeResult(r)), None))
  }

  /** The call that showed it: three records deleted, and `deleted_count` is not 3. */
  lemma ThresholdApprovedAsWrittenExample()
    ensures var r := ExecResult(None, None, Some(3), None);
      && ThresholdApprovedAsWritten(3, "User", Answered(r)).decision.deletedCount != Some(Count(3))
      && ThresholdApproved(3, "User", Answered(r)).decision.deletedCount == Some(Count(3))
  {
  }

  /**
   * The threshold-gated policy (`decide_and_perform_delete_records`), with its broken log line
   * left out and `deleted_count` corrected (see ThresholdGatedAsWritten and
   * ThresholdApprovedAsWritten for the code as written). Its `dry_run` argument is never used.
   */
  function ThresholdGated(b: Behaviour, t: Tables, confirmation: Option<bool>, dbPath: string,
                          table: string, filters: Option<FilterMap>, limit: Option<int>): (e: Effect)
    // a dry run with the caller's arguments always comes first, whatever the confirmation state
    ensures 1 <= |e.exchanges| <= 2
    ensures e.exchanges[0].call == ExecCall(dbPath, table, filters, limit, true)
    ensures forall i :: 0 <= i < |e.exchanges| ==> e.exchanges[i].answer == b(e.exchanges[i].call, t).0
    // the only other call is the one real deletion, and only it changes the tables
    ensures |e.exchanges| == 2 ==> e.exchanges[1].call == ExecCall(dbPath, table, filters, limit, false)
    ensures Destructive(e.exchanges) <= 1
    ensures e.tables == if |e.exchanges| == 1 then t else After(b, e.exchanges[1].call, t)
    // when it deletes
    ensures |e.exchanges| == 2 <==>
      && e.exchanges[0].answer.Answered?
      && (Candidates(e.exchanges[0].answer.result) <= Threshold || confirmation == Some(true))
    // over the threshold and unconfirmed: pending, with a request that will commit
    ensures e.request.Some? <==>
      && e.exchanges[0].answer.Answered?
      && Candidates(e.exchanges[0].answer.result) > Threshold && confirmation.None?
    ensures e.request.Some? ==>
      && e.request.value.payload == ExecCall(dbPath, table, filters, limit, false)
      && e.outcome.Returned? && e.outcome.decision.status == Pending
    ensures e.request.Some? ==>
      var n := Candidates(e.exchanges[0].answer.result);
      && e.request.value.hint == ThresholdHint(n, table)
      && e.outcome == Returned(Decision(Pending, PendingMessage(n, table), None, None))
    // what it returns: the executor's error, the corrected approved answer after the deletion,
    // or `denied` after a refusal over the threshold
    ensures e.exchanges[0].answer.Failed? ==>
      e.outcome == Raised(ExecutorError(e.exchanges[0].answer.error))
    ensures |e.exchanges| == 2 ==>
      e.outcome == ThresholdApproved(Candidates(e.exchanges[0].answer.result), table, e.exchanges[1].answer)
    ensures |e.exchanges| == 1 && e.exchanges[0].answer.Answered? && e.request.None? ==>
      && confirmation == Some(false)
      && e.outcome == Returned(Decision(Denied, ThresholdDeniedMessage(Candidates(e.exchanges[0].answer.result), table), None, None))
    ensures e.outcome.Returned? ==>
      && (e.outcome.decision.status == Pending <==> e.request.Some?)
      && (e.outcome.decision.status == Approved <==> |e.exchanges| == 2)
      && (e.outcome.decision.status == Denied ==> confirmation == Some(false) && e.tables == t)
  {
    var dry := ExecCall(dbPath, table, filters, limit, true);
    var commit := ExecCall(dbPath, table, filters, limit, false);
    var first := b(dry, t).0;
    match first
    case Failed(err) => Effect([Exchange(dry, first)], t, None, Raised(ExecutorError(err)))
    case Answered(r) =>
      var potential := Candidates(r);
      if potential <= Threshold || confirmation == Some(true) then
        var second := b(commit, t).0;
        Effect([Exchange(dry, first), Exchange(commit, second)], After(b, commit, t), None,
               ThresholdApproved(potential, table, second))
      else if confirmation.None? then
        Effect([Exchange(dry, first)], t,
               Some(ConfirmationRequest(ThresholdHint(potential, table), commit)),
               Returned(Decision(Pending, PendingMessage(potential, table), None, None)))
      else
        assert confirmation.Some? && !confirmation.value;
        Effect([Exchange(dry, first)], t, None,
               Returned(Decision(Denied, ThresholdDeniedMessage(potential, table), None, None)))
  }

  /**
   * A confirmation round trip of the threshold-gated gateway: when the first call asked, the
   * resumed call previews again and, if confirmed, commits exactly the call the request showed;
   * if refused, the tables are as they were. Over both calls at most one deletion is made.
   */
  lemma ThresholdGatedRoundTrip(b: Behaviour, t: Tables, yes: bool, dbPath: string, table: string,
                                filters: Option<FilterMap>, limit: Option<int>)
    ensures var e1 := ThresholdGated(b, t, None, dbPath, table, filters, limit);
      var e2 := ThresholdGated(b, e1.tables, Some(yes), dbPath, table, filters, limit);
      e1.request.Some? ==>
        && e1.tables == t
        && Destructive(e1.exchanges + e2.exchanges) == (if yes then 1 else 0)
        && (yes ==> |e2.exchanges| == 2 && e2.exchanges[1].call == e1.request.value.payload)
        && (!yes ==> e2.tables == t && e2.request.None?)
  {
    var e1 := ThresholdGated(b, t, None, dbPath, table, filters, limit);
    var e2 := ThresholdGated(b, e1.tables, Some(yes), dbPath, table, filters, limit);
    if e1.request.Some? {
      DestructiveAppend(e1.exchanges, e2.exchanges);
      assert Destructive(e1.exchanges) == 0;
      assert e2.exchanges[0].answer == e1.exchanges[0].answer;
      if yes {
        assert Destructive(e2.exchanges) == 1 by {
          assert e2.exchanges[1..][1..] == [];
        }
      } else {
        assert |e2.exchanges| == 1;
      }
    }
  }

  /**
   * At or under the threshold the confirmation state is never consulted: the gateway deletes
   * and approves whether the operator said yes, no or nothing yet.
   */
  lemma ThresholdGatedIgnoresAnswerUnderThreshold(b: Behaviour, t: Tables, c1: Option<bool>, c2: Option<bool>,
                                                  dbPath: string, table: string,
                                                  filters: Option<FilterMap>, limit: Option<int>)
    ensures var dry := b(ExecCall(dbPath, table, filters, limit, true), t).0;
      dry.Answered? && Candidates(dry.result) <= Threshold ==>
        var e1 := ThresholdGated(b, t, c1, dbPath, table, filters, limit);
        && e1 == ThresholdGated(b, t, c2, dbPath, table, filters, limit)
        && |e1.exchanges| == 2 && e1.request.None?
        && e1.outcome == ThresholdApproved(Candidates(dry.result), table, e1.exchanges[1].answer)
  {
  }

  /**
   * The threshold-gated gateway as written: the log line after the dry run subscripts
   * `potential_deletions`, an int, with `"preview_count"`, so every call that gets past the dry
   * run raises a TypeError there, before any decision.
   */
  function ThresholdGatedAsWritten(b: Behaviour, t: Tables, confirmation: Option<bool>, dbPath: string,
                                   table: string, filters: Option<FilterMap>, limit: Option<int>): (e: Effect)
    ensures e.outcome.Raised? && e.request.None? && e.tables == t
    ensures e.exchanges == [Exchange(ExecCall(dbPath, table, filters, limit, true),
                                     b(ExecCall(dbPath, table, filters, limit, true), t).0)]
  {
    var dry := ExecCall(dbPath, table, filters, limit, true);
    var first := b(dry, t).0;
    match first
    case Failed(err) => Effect([Exchange(dry, first)], t, None, Raised(ExecutorError(err)))
    case Answered(r) =>
      Effect([Exchange(dry, first)], t, None, Raised(TypeError("'int' object is not subscriptable")))
  }
}
