/**
 * workflow.py: one user turn of the database workflow. The request is streamed through the
 * runner, the collected events are scanned for a confirmation request, the operator's answer
 * becomes the resume message, and the paused turn is resumed once.
 */
module Workflow {
  import opened Wrappers
  import opened Strings
  import opened Content
  import opened Runner
  import AgentUtils

  /** What `check_for_approval` returns: the id of the confirmation call and of its turn. */
  datatype PendingApproval = PendingApproval(approvalId: string, invocationId: string)

  predicate IsConfirmationRequest(p: Part) {
    p.functionCall.Some? && p.functionCall.value.name == ConfirmationToolName
  }

  /** Part `j` of event `i` is a call of the confirmation tool. */
  predicate RequestAt(events: seq<Event>, i: int, j: int) {
    0 <= i < |events| && 0 <= j < |PartsOf(events[i])| && IsConfirmationRequest(PartsOf(events[i])[j])
  }

  /** Position `(i, j)` comes no later than `(i', j')`: event order first, then part order. */
  predicate NoLater(i: int, j: int, i': int, j': int) {
    i < i' || (i == i' && j <= j')
  }

  function ApprovalAt(events: seq<Event>, i: int, j: int): PendingApproval
    requires RequestAt(events, i, j)
  {
    PendingApproval(PartsOf(events[i])[j].functionCall.value.id, events[i].invocationId)
  }

  /** The first confirmation request among `parts[from..]`. */
  function FirstRequestPart(parts: seq<Part>, from: nat): (k: Option<nat>)
    requires from <= |parts|
    decreases |parts| - from
    ensures k.Some? ==>
      && from <= k.value < |parts| && IsConfirmationRequest(parts[k.value])
      && forall j :: from <= j < k.value ==> !IsConfirmationRequest(parts[j])
    ensures k.None? ==> forall j :: from <= j < |parts| ==> !IsConfirmationRequest(parts[j])
  {
    if from == |parts| then None
    else if IsConfirmationRequest(parts[from]) then Some(from)
    else FirstRequestPart(parts, from + 1)
  }

  /** The scan of `check_for_approval` from event `from` on: the position (event, part) of the
      first confirmation request there, in event order and then part order. */
  function FirstRequestFrom(events: seq<Event>, from: nat): (pos: Option<(nat, nat)>)
    requires from <= |events|
    decreases |events| - from
    ensures pos.Some? ==>
      && from <= pos.value.0 && RequestAt(events, pos.value.0, pos.value.1)
      && forall i, j :: from <= i && RequestAt(events, i, j) ==> NoLater(pos.value.0, pos.value.1, i, j)
    ensures pos.None? ==> forall i, j :: from <= i ==> !RequestAt(events, i, j)
  {
    if from == |events| then None
    else
      match FirstRequestPart(PartsOf(events[from]), 0)
      case Some(k) => Some((from, k))
      case None => FirstRequestFrom(events, from + 1)
  }

  /**
   * `check_for_approval`: the first confirmation request, in event order and then part order,
   * with its call id and its event's invocation id; `None` exactly when there is none. Events
   * without content or parts hold no request.
   */
  function CheckForApproval(events: seq<Event>): (r: Option<PendingApproval>)
    ensures r.None? <==> forall i, j :: !RequestAt(events, i, j)
    ensures r.Some? ==> exists i, j ::
      && RequestAt(events, i, j) && r.value == ApprovalAt(events, i, j)
      && forall i', j' :: RequestAt(events, i', j') ==> NoLater(i, j, i', j')
  {
    match FirstRequestFrom(events, 0)
    case Some((i, j)) => Some(ApprovalAt(events, i, j))
    case None => None
  }

  /** The operator answers that approve, after `strip().lower()`. */
  const AcceptedAnswers: set<string> := {"yes", "approve", "ok", "y"}

  function Normalize(userInput: string): string {
    Lower(Strip(userInput))
  }

  function IsApproved(userInput: string): bool {
    Normalize(userInput) in AcceptedAnswers
  }

  /** Approval depends only on the text between the surrounding whitespace, and on its case. */
  lemma ApprovalIgnoresPadding(w1: string, t: string, w2: string)
    requires AllSpace(w1) && AllSpace(w2) && Trimmed(t)
    ensures IsApproved(w1 + t + w2) <==> Lower(t) in AcceptedAnswers
  {
    StripPadded(w1, t, w2);
  }

  /**
   * `create_approval_message`: a user message with exactly one part, the response to the
   * confirmation call `approvalId`, whose `confirmed` is the normalised answer; the flag
   * returned beside it is the same decision.
   */
  function CreateApprovalMessage(approvalId: string, userInput: string): (r: (Message, bool))
    ensures r.1 == IsApproved(userInput)
    ensures r.0.role == "user" && |r.0.parts| == 1
    ensures r.0.parts[0].text.None? && r.0.parts[0].functionCall.None?
    ensures r.0.parts[0].functionResponse == Some(FunctionResponse(approvalId, ConfirmationToolName, r.1))
  {
    var approved := IsApproved(userInput);
    (Message("user", [Part(None, None, Some(FunctionResponse(approvalId, ConfirmationToolName, approved)))]),
     approved)
  }

  /** The resume message answers the detected request and is not itself a request. */
  lemma ResumeMessageAnswersRequest(events: seq<Event>, userInput: string, invocationId: string)
    requires CheckForApproval(events).Some?
    ensures var p := CheckForApproval(events).value;
      var (m, _) := CreateApprovalMessage(p.approvalId, userInput);
      && m.parts[0].functionResponse.value.id == p.approvalId
      && CheckForApproval([Event(invocationId, Some(m))]).None?
  {
    var p := CheckForApproval(events).value;
    var (m, _) := CreateApprovalMessage(p.approvalId, userInput);
    var one := [Event(invocationId, Some(m))];
    assert PartsOf(one[0]) == m.parts;
    assert !IsConfirmationRequest(m.parts[0]);
  }

  /** `max_retries` of `run_with_backoff`, which the workflow leaves at its default. */
  const MaxRetries: int := 3

  /** Terminal status of a turn. */
  datatype TurnStatus = CompletedApproved | CompletedDenied | CompletedWithoutApproval

  /** The `status` string returned; the approved one has a double underscore, as written. */
  function TurnStatusText(s: TurnStatus): string {
    match s
    case CompletedApproved => "completed__approved"
    case CompletedDenied => "completed_denied"
    case CompletedWithoutApproval => "completed_without_approval"
  }

  /** A turn returns its status, or one of the wrapper's errors propagates out of it. */
  datatype TurnResult = Completed(status: TurnStatus) | Aborted(end: AgentUtils.StreamEnd)

  function RequestMessage(userRequest: string): Message {
    Message("user", [Part(Some(userRequest), None, None)])
  }

  function FirstCall(userRequest: string, sessionId: string, userId: string): RunCall {
    RunCall(userId, sessionId, RequestMessage(userRequest), None)
  }

  function ResumeCall(p: PendingApproval, userInput: string, sessionId: string, userId: string): RunCall {
    RunCall(userId, sessionId, CreateApprovalMessage(p.approvalId, userInput).0, Some(p.invocationId))
  }

  lemma TextsOfSnoc(s: seq<Event>, i: nat)
    requires i < |s|
    ensures TextsOf(s[..i + 1]) == TextsOf(s[..i]) + TextsOfParts(PartsOf(s[i]))
  {
    assert s[..i + 1] == s[..i] + [s[i]];
    TextsOfAppend(s[..i], [s[i]]);
    assert [s[i]][1..] == [];
  }

  /** One more event shown: its texts follow those of the events before it. */
  lemma ShowStep(shown: seq<string>, events: seq<Event>, i: nat, out: seq<string>)
    requires i < |events| && out == shown + TextsOf(events[..i])
    ensures out + TextsOfParts(PartsOf(events[i])) == shown + TextsOf(events[..i + 1])
  {
    TextsOfSnoc(events, i);
    var texts := TextsOfParts(PartsOf(events[i]));
    assert (shown + TextsOf(events[..i])) + texts == shown + (TextsOf(events[..i]) + texts);
  }

  /** Prints the texts of a stream, event by event (`print(f"Agent > {part.text}")`). */
  method ShowTexts(shown: seq<string>, events: seq<Event>) returns (out: seq<string>)
    ensures out == shown + TextsOf(events)
  {
    out := shown;
    for i := 0 to |events|
      invariant out == shown + TextsOf(events[..i])
    {
      ShowStep(shown, events, i, out);
      out := out + TextsOfParts(PartsOf(events[i]));
    }
    assert events[..|events|] == events;
  }

  /**
   * `run_db_workflow`: stream the request once and collect every event; only then look for a
   * confirmation request. With none, the turn completes without approval. With one, the
   * operator answers once, the paused turn is resumed once with the answer to that request
   * and its invocation id, and the status follows the answer. The resumed stream is shown but
   * not scanned again.
   */
  method RunDbWorkflow(service: Service, userRequest: string, sessionId: string, operatorInput: string,
                       userId: string := "default_user")
    returns (result: TurnResult, calls: seq<RunCall>, prompted: bool, shown: seq<string>)
    ensures var first := FirstCall(userRequest, sessionId, userId);
      var run1 := AgentUtils.Backoff(service, first, MaxRetries, 0, 0);
      && |calls| >= run1.calls && calls[..run1.calls] == Repeat(first, run1.calls)
      && (prompted <==> run1.end.Finished? && CheckForApproval(run1.yielded).Some?)
      && (!prompted ==>
            && calls == Repeat(first, run1.calls)
            && shown == TextsOf(run1.yielded)
            && result == if run1.end.Finished? then Completed(CompletedWithoutApproval) else Aborted(run1.end))
      && (prompted ==>
            var resume := ResumeCall(CheckForApproval(run1.yielded).value, operatorInput, sessionId, userId);
            var run2 := AgentUtils.Backoff(service, resume, MaxRetries, run1.calls, 0);
            && calls == Repeat(first, run1.calls) + Repeat(resume, run2.calls)
            && shown == TextsOf(run1.yielded) + TextsOf(run2.yielded)
            && result == if !run2.end.Finished? then Aborted(run2.end)
                         else if IsApproved(operatorInput) then Completed(CompletedApproved)
                         else Completed(CompletedDenied))
  {
    var first := FirstCall(userRequest, sessionId, userId);
    var run1 := AgentUtils.RunWithBackoff(service, first, 0);
    calls := Repeat(first, run1.calls);
    assert calls[..run1.calls] == calls;
    var events: seq<Event> := [];
    shown := [];
    for i := 0 to |run1.yielded|
      invariant events == run1.yielded[..i]
      invariant shown == TextsOf(run1.yielded[..i])
    {
      var event := run1.yielded[i];
      events := events + [event];
      TextsOfSnoc(run1.yielded, i);
      shown := shown + TextsOfParts(PartsOf(event));
    }
    assert run1.yielded[..|run1.yielded|] == run1.yielded;
    prompted := false;
    if !run1.end.Finished? {
      return Aborted(run1.end), calls, prompted, shown;
    }
    var approvalInfo := CheckForApproval(events);
    if approvalInfo.None? {
      return Completed(CompletedWithoutApproval), calls, prompted, shown;
    }
    prompted := true;
    var (approvalMessage, isApproved) := CreateApprovalMessage(approvalInfo.value.approvalId, operatorInput);
    var resume := RunCall(userId, sessionId, approvalMessage, Some(approvalInfo.value.invocationId));
    var run2 := AgentUtils.RunWithBackoff(service, resume, run1.calls);
    shown := ShowTexts(shown, run2.yielded);
    calls := calls + Repeat(resume, run2.calls);
    assert calls[..run1.calls] == Repeat(first, run1.calls);
    if !run2.end.Finished? {
      result := Aborted(run2.end);
    } else {
      result := Completed(if isApproved then CompletedApproved else CompletedDenied);
    }
  }
}
