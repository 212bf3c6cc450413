# DB management agent: deletion confirmation and safety core

This project models the control logic of an LLM agent that manages a laboratory SQLite
database, and proves properties of that model. The agent may only delete records through a
gateway tool. The gateway previews the deletion with a dry run, asks the human operator for
confirmation through the agent framework's `ToolContext`, and commits only on an explicit
yes. Around the gateway sit three more pieces:

- a workflow turn (`run_db_workflow`). It streams the user's request through the runner,
  detects the framework's `adk_request_confirmation` call, turns the operator's typed answer
  into a function response, and invokes the retry wrapper once to resume the paused turn (the
  wrapper resends that answer after every 429);
- two retry wrappers (`run_with_backoff`). Each makes a bounded number of attempts. It retries
  a rate-limit error (HTTP 429), re-raises any other error, and raises `RuntimeError` once the
  retries are used up;
- a history trim. It keeps the first turn and the last ten once the runner's history grows
  past 15 turns.

Layout, one module per file:

| module | file | models |
|---|---|---|
| `Wrappers` | wrappers.dfy | `Option` |
| `Strings` | strings.dfy | Python's `str.strip()` (the `isspace` set), `str.lower()` and `str(int)` |
| `Content` | content.dfy | the `google.genai.types` values the workflow reads: events, contents, parts, function calls and responses |
| `Runner` | runner.dfy | runner calls, attempts, `ClientError` and its error code |
| `Executor` | executor.dfy | the external `delete_records_by_filter`, kept abstract as a `Database` class |
| `ToolCtx` | toolctx.dfy | the framework's `ToolContext` as a class |
| `Gateway` | gateway.dfy | decisions, messages, and both confirmation policies as specification functions |
| `AgentUtils` | agent_utils.dfy | agent/utils.py |
| `RootUtils` | root_utils.dfy | utils.py |
| `Workflow` | workflow.dfy | workflow.py |
| `ApprovalExamples` | approval_examples.dfy | example operator answers and how workflow.py decides them |

The source files keep their form in the model.

- The gateways of agent/utils.py and utils.py are methods. They change a `ToolContext`
  (`requests`) and a `Database` (`tables`, `log`). Each method is proved to have exactly the
  effect that a specification function in `Gateway` describes. `Gateway.AlwaysConfirm` and
  `Gateway.ThresholdGated` then carry the safety properties:
  - the threshold-gated gateway always runs a dry run first; the always-confirm gateway runs
    one first whenever no answer is there yet, so a round trip that starts by asking previews
    before anything else (`Gateway.AlwaysConfirmRoundTrip`);
  - at most one destructive call is made;
  - nothing changes while a request is pending or when the `denied` status is returned;
  - the recorded payload holds the caller's `db_path`, `table`, `filters` and `limit` exactly;
    its `dry_run` is the caller's in the always-confirm gateway, and always `False` in the
    threshold-gated one (agent/utils.py:46);
  - in the always-confirm gateway, each status corresponds to exactly one confirmation state
    (pending: no answer; approved: yes; denied: no). In the threshold-gated gateway, pending
    means a request was recorded and approved means a deletion was made.
- Both `run_with_backoff`s are `while` loops over an attempt counter. Each is proved equal to a
  recursive function (`AgentUtils.Backoff`, `RootUtils.Retry`), and a policy lemma is proved
  about that function.
- In utils.py the history trim reassigns `runner.history` in place. `RootUtils.DebugRunner`
  holds that field.
- `check_for_approval` and `create_approval_message` are functions.
- `run_db_workflow` is a method that collects the first stream event by event. It is proved
  against the two runs of `AgentUtils.Backoff`.

Collaborators become parameters:

- The executor's behaviour is a function `(call, tables) -> (answer, tables)`. A dry run never
  changes the tables, by construction (`Executor.After`).
- The runner's service is a function from a call and the ordinal of that call to an attempt,
  made of the events it streamed and how it ended. A rate limit depends on when a call is
  made, not on what it asks.
- The operator's typed answer is a parameter of `Workflow.RunDbWorkflow`.

### Where the model follows the code rather than a safer design

- A design in which a dry run matching zero records is approved without a prompt is not what
  the code does. The always-confirm gateway (agent/utils.py:89-114) asks for confirmation whatever
  the count, and the model does the same.
- A second confirmation request inside a resumed turn is not treated as an error.
  `run_db_workflow` never scans the resumed stream (workflow.py:99-112), so the model
  ignores such a request.
- The threshold-gated gateway reads the candidate count from the key `delete_candidate`
  (agent/utils.py:31, utils.py:21). A missing key counts as 0 (`Gateway.Candidates`). The
  always-confirm gateways read the dry-run keys `preview_count` and `preview_path` instead
  (agent/utils.py:100, utils.py:68). Against an executor that answers with those keys the
  count is always 0, so the corrected gateway would delete without asking. The
  model keeps the key as written.
- The threshold-gated gateway decides on the threshold before it looks at the confirmation
  (agent/utils.py:35 comes before agent/utils.py:43). At or under 10 candidates it deletes and
  approves whatever the operator answered, a "no" included
  (`Gateway.ThresholdGatedIgnoresAnswerUnderThreshold`). So `denied` means "over the threshold
  and refused", and only then are the tables sure to be unchanged.
- In the always-confirm gateway, a call that already carries a yes skips the dry run: it makes
  the one executor call of agent/utils.py:126 and nothing before it.
- In the always-confirm gateway, the confirmed branch calls the executor with the caller's
  `dry_run`, which defaults to `True` (agent/utils.py:126). A confirmed call with the default
  previews again and deletes nothing. `Gateway.AlwaysConfirmRoundTrip` states this: over the
  round trip, at most one destructive call happens, and only when `dry_run=False` was passed.
- When utils.py's always-confirm gateway logs its dry run, it also looks up `preview_path`
  (utils.py:68). A dry-run result without that key therefore raises `KeyError` before any
  request is recorded. The agent/utils.py copy does not do this. The flag `readsPreviewPath`
  of `Gateway.AlwaysConfirm` marks the difference.
- Neither gateway remembers an earlier confirmed call. The framework may call the same tool
  again with the same yes, and each such call with `dry_run=False` deletes again
  (`Gateway.AlwaysConfirmTwiceDeletesTwice`: two calls, two destructive executor calls).
- The resumed turn goes through `run_with_backoff` like the first one (workflow.py:99-105),
  and the wrapper restarts a rate-limited stream with the same approval message
  (agent/utils.py:177-214). If a cut-short attempt had already run the confirmed tool, the
  confirmation is sent again, up to three times in all
  (`AgentUtils.BackoffResendsOnRateLimit`; `Workflow.RunDbWorkflow` counts
  `Repeat(resume, run2.calls)` resume calls).
- On resume the threshold-gated gateway does not reuse the preview the operator saw. It runs
  the dry run again on the tables as they are then and decides on that fresh count
  (agent/utils.py:30; `Gateway.ThresholdGatedResumePreviewsAgain`).

## Model

| member | source | states |
|---|---|---|
| Strings.Strip | workflow.py:57 | `strip()` leaves no Python whitespace at either end and never lengthens the text |
| Strings.Lower | workflow.py:57 | `lower()` keeps the length and lowers each character: A–Z and the Kelvin sign, which becomes `k` |
| Strings.StripPadded | workflow.py:57 | stripping whitespace padded around a trimmed text gives back exactly that text |
| Content.TextsOfParts | workflow.py:78-82 | the texts a stream loop prints for one event: never an empty one, at most one per part; the text of every part with a non-empty text is printed, and every printed text is such a part's text |
| Content.TextsOfPartsAppend | workflow.py:78-82 | the printed texts keep part order: the texts of two runs of parts are those of the first, then those of the second |
| Executor.After | agent/utils.py:91 | a dry-run executor call leaves the tables unchanged |
| Executor.Database.DeleteRecordsByFilter | agent/utils.py:126 | one executor call: its answer is the behaviour's, it is appended to the call log, and the new tables are `After` the call |
| ToolCtx.ToolContext.RequestConfirmation | agent/utils.py:100-101 | appends exactly one request, with the given hint and payload |
| Gateway.AskApproved | agent/utils.py:140-145 | after a confirmed executor call: approved iff the executor answered with a `deleted` entry; `deleted_count` is that entry; the preview path defaults to `""`; a failed call raises the executor's error and a result without `deleted` raises `KeyError("deleted")` |
| Gateway.AlwaysConfirm | agent/utils.py:88-159 | always-confirm policy: at most one executor call; tables unchanged unless confirmed; no answer: one dry run, then `pending` with a request exactly when the dry run answered with `preview_count` (and, where the log line reads it, `preview_path`); a failed dry run raises the executor's error, a missing `preview_count` raises `KeyError("preview_count")` and, where it is read, a missing `preview_path` raises `KeyError("preview_path")`, the hint showing that count and the payload the caller's arguments exactly; confirmed: one call with this call's `dry_run`; denied: no call, no request, no count; pending iff no answer, approved iff confirmed |
| Gateway.AlwaysConfirmRoundTrip | agent/utils.py:88-145 | ask, then resume with the answer: the first call leaves the tables unchanged; a yes runs exactly the call the request showed; a no changes nothing; one destructive call in all iff yes and `dry_run=False` |
| Gateway.AlwaysConfirmTwiceDeletesTwice | agent/utils.py:116-126 | two calls that each carry a yes and `dry_run=False` make two destructive calls with the same arguments, the second on the tables the first left |
| Gateway.ThresholdApproved | agent/utils.py:54-61 | approved iff the commit answered with `deleted`, and `deleted_count` is that count; a failed commit raises the executor's error, and a result without `deleted` raises `KeyError("deleted")` |
| Gateway.ThresholdApprovedAsWritten | agent/utils.py:35-41 | the under-threshold branch as written: it returns iff the commit answered, and then the status is `approved` and `deleted_count` is the whole result, whatever its keys |
| Gateway.ThresholdApprovedAsWrittenExample | agent/utils.py:36-41 | three records deleted: as written `deleted_count` is not 3; corrected it is 3 |
| Gateway.ThresholdGated | agent/utils.py:28-68 | threshold policy: the dry run comes first, always; at most one more call, which is the commit and the only change to the tables; deletes iff the dry run answered and candidates are at most 10 or the operator confirmed; a request (payload with `dry_run=False`) iff more than 10 and no answer; pending iff a request, whose hint shows the count; after the deletion the corrected approved answer (`deleted_count` is the `deleted` entry, `ThresholdApproved`); a refusal over the threshold returns `denied` with tables unchanged; a failed dry run raises the executor's error |
| Gateway.ThresholdGatedIgnoresAnswerUnderThreshold | agent/utils.py:34-41 | with at most 10 candidates the effect is the same whatever the confirmation state: two executor calls, no request, and the corrected approved answer of `ThresholdApproved` |
| Gateway.ThresholdGatedResumePreviewsAgain | agent/utils.py:28-31 | a confirmed resume runs the same dry run again on the tables as they are then, and deletes iff that fresh dry run answers |
| Gateway.ThresholdGatedRoundTrip | agent/utils.py:43-61 | after a pending first call, the resume with a yes commits exactly the request's payload, with one destructive call over both; with a no it leaves the tables unchanged and asks nothing |
| Gateway.ThresholdGatedAsWritten | utils.py:20-22 | as written, every call raises after the dry run, records no request and leaves the tables unchanged |
| AgentUtils.AskForDeletionConfirmation | agent/utils.py:71-159 | the tool's calls to the executor, its new tables, its recorded request and its result are exactly those of `AlwaysConfirm` (`limit` defaults to `None`) |
| AgentUtils.DecideAndPerformDeleteRecords | agent/utils.py:28-68 | the tool's executor calls, new tables, recorded request and result are exactly those of `ThresholdGated` |
| AgentUtils.YieldAll | agent/utils.py:190-196 | re-yields an attempt's events in order after those already yielded |
| AgentUtils.RunWithBackoff | agent/utils.py:169-222 | the streaming retry loop yields, ends and calls the runner exactly as `Backoff` from attempt 0 |
| AgentUtils.BackoffResendsOnRateLimit | agent/utils.py:176-214 | against a service that rate-limits every attempt, the same call is sent once per remaining retry (`max_retries` times from attempt 0), and the run ends with retries exhausted |
| AgentUtils.BackoffPolicy | agent/utils.py:176-222 | at most `max_retries` runner calls, none (and `RuntimeError` at once) when `max_retries <= 0`; every attempt before the last was a 429; the last one decides: normal end, a re-raised non-429 error, or `RuntimeError` after `max_retries` 429s; the events of every attempt are yielded in order, including those of attempts cut short by a 429 |
| RootUtils.AskForDeletionConfirmation | utils.py:57-90 | the effect is exactly `AlwaysConfirm` with the `preview_path` lookup; `limit` defaults to 10, for the dry run and for the payload |
| RootUtils.DecideAndPerformDeleteRecords | utils.py:18-55 | the effect is exactly `ThresholdGated` |
| RootUtils.TrimmedHistory | utils.py:136 | the trimmed history has 11 turns: the old first one, then the old last ten in order |
| RootUtils.HistoryAfter | utils.py:133-136 | at most 15 turns afterwards; a history of at most 15 is unchanged, a longer one becomes `TrimmedHistory`; the first turn is kept |
| RootUtils.HistoryAfterDropsOnly | utils.py:133-136 | trimming only drops turns, keeps the newest turn last, and a trimmed history is not trimmed again |
| RootUtils.RetryPolicy | utils.py:138-163 | at most `max_retries` calls of `run_debug`; every attempt before the last was a 429; a result is returned as is; a non-429 error is re-raised; `RuntimeError` after `max_retries` 429s |
| RootUtils.RunWithBackoff | utils.py:122-163 | trims the runner's history (when it has one) to `HistoryAfter`, then retries exactly as `Retry` from attempt 0 |
| Workflow.FirstRequestPart | workflow.py:34-37 | the first part from `from` on that calls `adk_request_confirmation`, or none when no later part does |
| Workflow.FirstRequestFrom | workflow.py:32-43 | the position of the first request at event `from` or later, in event order and then part order, with no request before it; `None` iff there is none |
| Workflow.CheckForApproval | workflow.py:26-43 | `None` iff no part of any event calls `adk_request_confirmation`; otherwise the first such call's id and its event's invocation id, with no request before it |
| Workflow.ApprovalIgnoresPadding | workflow.py:57-58 | an answer approves iff its text without surrounding whitespace, lower-cased, is in the accepted set |
| ApprovalExamples.ApprovedExamples | workflow.py:56-58 | `" YES "`, `"ok"` and `"APPROVE"` approve |
| ApprovalExamples.DeniedExamples | workflow.py:56-58 | `"no"`, `"cancel"`, `""` and `"DENY"` deny |
| Workflow.CreateApprovalMessage | workflow.py:45-62 | a user message with exactly one part: a function response to `approval_id`, named `adk_request_confirmation`, whose `confirmed` is the normalised answer; the flag returned is the same decision |
| Workflow.ResumeMessageAnswersRequest | workflow.py:96-105 | the resume message answers the detected request's id and holds no confirmation request itself |
| Workflow.ShowTexts | workflow.py:106-109 | prints the texts of a stream, event by event and part by part |
| Workflow.RunDbWorkflow | workflow.py:66-114 | the first stream is collected whole before detection; the operator is asked iff it ended normally with a request in it; without a request the runner is called only for the first request and the turn ends `completed_without_approval`; with one, the retry wrapper is invoked once for the resume, sending the message answering the detected id and its invocation id once per attempt (so again after every 429), the resumed stream is only shown, and the status is `completed__approved` or `completed_denied` after the answer; an error of either wrapper aborts the turn |

## Findings

| source | as written | input that shows it | evidently intended | confidence | as-written member | corrected member |
|---|---|---|---|---|---|---|
| agent/utils.py:32 | the dry-run log line subscripts `potential_deletions`, an int, with `"preview_count"` (utils.py:22 is the same) | any dry run that answers, e.g. one with no `delete_candidate` key, so `potential_deletions == 0` | log the candidate count and go on to the threshold decision | not executed | Gateway.ThresholdGatedAsWritten | Gateway.ThresholdGated |
| agent/utils.py:40 | the under-threshold branch returns the executor's whole result as `deleted_count` (utils.py:30 is the same) | a commit answering `deleted = 3`: `deleted_count` is the dictionary, not 3 | `deleted_count` is `result["deleted"]`, as in the confirmed branch (agent/utils.py:60) | not executed | Gateway.ThresholdApprovedAsWrittenExample | Gateway.ThresholdApproved |

The methods `AgentUtils.DecideAndPerformDeleteRecords` and `RootUtils.DecideAndPerformDeleteRecords`
use the corrected definitions.

## Left out

- `delete_records_by_filter` (package `lab_data_manager`) is not part of this model. All that is kept is its contract that a dry run does not change the tables. Its answer and the tables a real deletion leaves are the parameter `behaviour`. Unknown tables and malformed filters become its `Failed` answer.
- The filter-field vocabulary exists only as prompt text, so no validator is modelled. Filter values are strings, numbers or flags.
- Every `logger` call is left out as output only, and so are the `print` in the retry loops, `print("Pausing for approval...")` (workflow.py:92) and the `"Agent > "` prefix of the printed texts (workflow.py:82, 109): `Workflow.ShowTexts` and the `shown` texts of `Workflow.RunDbWorkflow` hold the bare part texts. The one exception is the log line at agent/utils.py:32 and utils.py:22, kept in `Gateway.ThresholdGatedAsWritten` because it raises. utils.py:68 is kept as the `preview_path` lookup that can raise `KeyError`.
- The dry-run log line at agent/utils.py:32 and utils.py:22 nests double quotes inside an f-string. Before Python 3.12 that is a syntax error, and the module does not import at all. The model assumes Python 3.12 or later.
- `asyncio.sleep(65)` between retries is left out: there is no clock. It is a no-op, and the waiting shows only in the attempt ordinal the service is given.
- The concurrency of async generators is left out. A stream is the finite sequence of events one attempt yields, consumed in order.
- Read access to `tool_context.user_id` is left out, since it is used only in log lines.
- `**kwargs` passed to the runner are left out. RootUtils.RunWithBackoff forwards its arguments as an opaque value, and the workflow's one extra argument, `invocation_id`, is a field of `Runner.RunCall`.
- `input()` is left out. The operator's answer is the parameter `operatorInput` of `Workflow.RunDbWorkflow`.
- Strings.Lower: lowers only A–Z and the Kelvin sign, the only characters that lower into the accepted answers. Other non-ASCII case mappings of `str.lower()` are not modelled, so a non-ASCII upper-case answer is compared as written.
- Strings.IntToString: is proved only to put a minus sign exactly on negative numbers. That it is Python's decimal `str(int)` is not proved.
- The message types are reduced to the attributes the core reads. A function response carries only `confirmed`, and an event without an invocation id does not occur.
- The agent and prompt modules, memory_managment.py (an LLM summarisation call), main.py (the command-line loop), observability/logging_config.py and the test files are not part of this model.
