/**
 * Example answers to the operator prompt of workflow.py, each decided by `Workflow.IsApproved`.
 * For each example, what `strip()` leaves and what `lower()` makes of it are proved in lemmas
 * of their own, which keeps each proof's context small; `PaddedYesText` is only the
 * concatenation step of the padded example. The lemmas that carry the examples are
 * `ApprovedExamples` and `DeniedExamples` at the end.
 */
module ApprovalExamples {
  import opened Strings
  import opened Workflow

  lemma PaddedYesText() ensures " " + "YES" + " " == " YES " {}

  lemma StripsPaddedYes() ensures Strip(" YES ") == "YES" {
    StripPadded(" ", "YES", " ");
    PaddedYesText();
  }

  lemma LowersPaddedYes() ensures Lower("YES") == "yes" && "yes" in AcceptedAnswers {}

  lemma ApprovesPaddedYes() ensures IsApproved(" YES ") {
    StripsPaddedYes();
    LowersPaddedYes();
  }

  lemma StripsOk() ensures Strip("ok") == "ok" {
    StripPadded("", "ok", "");
    assert "" + "ok" + "" == "ok";
  }

  lemma LowersOk() ensures Lower("ok") == "ok" && "ok" in AcceptedAnswers {}

  lemma ApprovesOk() ensures IsApproved("ok") {
    StripsOk();
    LowersOk();
  }

  lemma StripsApprove() ensures Strip("APPROVE") == "APPROVE" {
    StripPadded("", "APPROVE", "");
    assert "" + "APPROVE" + "" == "APPROVE";
  }

  lemma LowersApprove() ensures Lower("APPROVE") == "approve" && "approve" in AcceptedAnswers {}

  lemma ApprovesApprove() ensures IsApproved("APPROVE") {
    StripsApprove();
    LowersApprove();
  }

  lemma StripsNo() ensures Strip("no") == "no" {
    StripPadded("", "no", "");
    assert "" + "no" + "" == "no";
  }

  lemma LowersNo() ensures Lower("no") == "no" && "no" !in AcceptedAnswers {}

  lemma RefusesNo() ensures !IsApproved("no") {
    StripsNo();
    LowersNo();
  }

  lemma StripsCancel() ensures Strip("cancel") == "cancel" {
    StripPadded("", "cancel", "");
    assert "" + "cancel" + "" == "cancel";
  }

  lemma LowersCancel() ensures Lower("cancel") == "cancel" && "cancel" !in AcceptedAnswers {}

  lemma RefusesCancel() ensures !IsApproved("cancel") {
    StripsCancel();
    LowersCancel();
  }

  lemma StripsDeny() ensures Strip("DENY") == "DENY" {
    StripPadded("", "DENY", "");
    assert "" + "DENY" + "" == "DENY";
  }

  lemma LowersDeny() ensures Lower("DENY") == "deny" && "deny" !in AcceptedAnswers {}

  lemma RefusesDeny() ensures !IsApproved("DENY") {
    StripsDeny();
    LowersDeny();
  }

  lemma RefusesEmpty() ensures !IsApproved("") {
    assert Strip("") == "";
    assert Normalize("") == "";
  }

  /** Answers that approve: the accepted ones, in any case and with surrounding blanks. */
  lemma ApprovedExamples()
    ensures IsApproved(" YES ") && IsApproved("ok") && IsApproved("APPROVE")
  {
    ApprovesPaddedYes(); ApprovesOk(); ApprovesApprove();
  }

  /** Anything else is a denial, including an empty answer. */
  lemma DeniedExamples()
    ensures !IsApproved("no") && !IsApproved("cancel") && !IsApproved("") && !IsApproved("DENY")
  {
    RefusesNo(); RefusesCancel(); RefusesEmpty(); RefusesDeny();
  }
}
