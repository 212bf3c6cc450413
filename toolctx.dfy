/**
 * The agent framework's `ToolContext`, as far as the deletion gateways use it: the operator's
 * answer to an earlier confirmation request (`tool_confirmation`) and `request_confirmation`.
 */
module ToolCtx {
  import opened Wrappers
  import opened Executor

  /** A recorded confirmation request: the text shown to the operator and the payload of
      arguments (`db_path`, `table`, `filters`, `limit`, `dry_run`) to re-invoke the tool with. */
  datatype ConfirmationRequest = ConfirmationRequest(hint: string, payload: ExecCall)

  class ToolContext {
    /** `None` until the operator answered; then `Some(confirmed)`. */
    var toolConfirmation: Option<bool>
    var requests: seq<ConfirmationRequest>

    constructor (confirmation: Option<bool>)
      ensures toolConfirmation == confirmation && requests == []
    {
      toolConfirmation := confirmation;
      requests := [];
    }

    method RequestConfirmation(hint: string, payload: ExecCall)
      modifies this`requests
      ensures requests == old(requests) + [ConfirmationRequest(hint, payload)]
    {
      requests := requests + [ConfirmationRequest(hint, payload)];
    }
  }
}
