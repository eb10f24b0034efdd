/**
  The contract approval workflow that sla/chaincode_sla/chaincode_sla_test.go
  expects of `slaSubmitContract`, `slaApproveContract`, `slaRejectContract`
  and `slaCloseContract`. In sla/chaincode_sla/chaincode_sla.go the submit,
  reject and close handlers are empty and approve signs a slot chosen by
  the caller, so this module is derived from the tests, not from the
  handlers: pure transitions on a contract, driven by its `Progression`.

  The approval line has one slot per stage: slot 0 for the drafter, slot 1
  for the internal reviewer, slot 2 for the client's reviewer and slot 3 for
  the client's manager.
*/
module ApprovalWorkflow {
  import opened Wrappers
  import opened SlaRecords

  const Temp := "TEMP"
  const InternalReview := "IN_PROGRESS_INTERNAL_REVIEW_REQUESTED"
  const ClientReview := "IN_PROGRESS_CLIENT_REVIEW_REQUESTED"
  const ClientManagerReview := "IN_PROGRESS_CLIENT_MANAGER_REVIEW_REQUESTED"
  const Closed := "CLOSED"

  const Submitted := "SUBMITTED"
  const Approved := "APPROVED"
  const Rejected := "REJECTED"

  /** The position of a stage on the way from TEMP to CLOSED. */
  function Rank(stage: string): Option<nat> {
    if stage == Temp then Some(0)
    else if stage == InternalReview then Some(1)
    else if stage == ClientReview then Some(2)
    else if stage == ClientManagerReview then Some(3)
    else if stage == Closed then Some(4)
    else None
  }

  /** The approval slot a review stage waits for: the stage's rank. */
  function ReviewSlot(stage: string): (k: Option<nat>)
    ensures k.Some? <==> stage in {InternalReview, ClientReview, ClientManagerReview}
    ensures k.Some? ==> Rank(stage) == k && 1 <= k.value <= 3
  {
    if stage == InternalReview then Some(1)
    else if stage == ClientReview then Some(2)
    else if stage == ClientManagerReview then Some(3)
    else None
  }

  /** Nothing but the stage and the approval line differs. */
  predicate SameTerms(a: SlaContract, b: SlaContract) {
    a.(progression := b.progression, approvals := b.approvals) == b
  }

  /**
    Temporary save of a new contract: it enters the workflow at its first
    stage, TEMP, with its approval line as given.
  */
  function SaveTemp(c: SlaContract): (r: SlaContract)
    ensures Rank(r.progression) == Some(0)
    ensures SameTerms(r, c) && r.approvals == c.approvals
  {
    c.(progression := Temp)
  }

  /**
    Submit: from any stage the contract goes to internal review and slot 0
    reads SUBMITTED; nothing else changes.
  */
  function Submit(c: SlaContract): (r: Option<SlaContract>)
    ensures r.Some? <==> |c.approvals| >= 1
    ensures r.Some? ==> r.value.progression == InternalReview && SameTerms(r.value, c)
    ensures r.Some? ==> (
      && |r.value.approvals| == |c.approvals|
      && r.value.approvals[0] == c.approvals[0].(state := Submitted)
      && forall j :: 1 <= j < |c.approvals| ==> r.value.approvals[j] == c.approvals[j])
  {
    if |c.approvals| == 0 then None
    else Some(c.(progression := InternalReview, approvals := c.approvals[0 := c.approvals[0].(state := Submitted)]))
  }

  /**
    Approve, during any review: the stage's slot is signed APPROVED with the
    reviewer, the comment and the date, and the contract moves one stage on;
    the client manager's approval closes it.
  */
  function Approve(c: SlaContract, userId: string, comment: string, date: string): (r: Option<SlaContract>)
    ensures r.Some? <==> ReviewSlot(c.progression).Some? && ReviewSlot(c.progression).value < |c.approvals|
    ensures r.Some? ==> Rank(r.value.progression).Some? && Rank(r.value.progression).value == Rank(c.progression).value + 1
    ensures r.Some? ==> (
      && SameTerms(r.value, c)
      && r.value.approvals == Sign(c, ReviewSlot(c.progression).value, userId, Approved, date, comment).approvals)
  {
    if c.progression == InternalReview && 1 < |c.approvals| then
      Some(Sign(c, 1, userId, Approved, date, comment).(progression := ClientReview))
    else if c.progression == ClientReview && 2 < |c.approvals| then
      Some(Sign(c, 2, userId, Approved, date, comment).(progression := ClientManagerReview))
    else if c.progression == ClientManagerReview && 3 < |c.approvals| then
      Some(Sign(c, 3, userId, Approved, date, comment).(progression := Closed))
    else None
  }

  /** Close, during the client manager's review: slot 3 is signed APPROVED and the contract is CLOSED. */
  function Close(c: SlaContract, userId: string, comment: string, date: string): (r: Option<SlaContract>)
    ensures r.Some? <==> c.progression == ClientManagerReview && 3 < |c.approvals|
    ensures r.Some? ==> (
      && r.value.progression == Closed && SameTerms(r.value, c)
      && r.value.approvals == Sign(c, 3, userId, Approved, date, comment).approvals)
  {
    if c.progression == ClientManagerReview && 3 < |c.approvals| then
      Some(Sign(c, 3, userId, Approved, date, comment).(progression := Closed))
    else None
  }

  /** Close is the client manager's approval under its own name: the two agree on every contract in that stage. */
  lemma CloseIsFinalApprove(c: SlaContract, userId: string, comment: string, date: string)
    requires c.progression == ClientManagerReview
    ensures Approve(c, userId, comment, date) == Close(c, userId, comment, date)
    ensures Close(c, userId, comment, date).Some? ==> Close(c, userId, comment, date).value.progression == Closed
  {
  }

  /** Reject, during any review: the stage's slot is signed REJECTED and the stage is kept. */
  function Reject(c: SlaContract, userId: string, comment: string, date: string): (r: Option<SlaContract>)
    ensures r.Some? <==> ReviewSlot(c.progression).Some? && ReviewSlot(c.progression).value < |c.approvals|
    ensures r.Some? ==> (
      && r.value.progression == c.progression && SameTerms(r.value, c)
      && r.value.approvals == Sign(c, ReviewSlot(c.progression).value, userId, Rejected, date, comment).approvals)
  {
    match ReviewSlot(c.progression)
    case Some(k) =>
      if k < |c.approvals| then Some(Sign(c, k, userId, Rejected, date, comment)) else None
    case None => None
  }

  /** Nothing moves a CLOSED contract except a new submission. */
  lemma ClosedIsFinal(c: SlaContract, userId: string, comment: string, date: string)
    requires c.progression == Closed
    ensures Approve(c, userId, comment, date).None?
    ensures Close(c, userId, comment, date).None?
    ensures Reject(c, userId, comment, date).None?
  {
  }

  /**
    The run the tests walk through: submit, approve twice, close. From any
    stage and any contract with four slots, it ends CLOSED with slots 0 to
    3 reading SUBMITTED, APPROVED, APPROVED, APPROVED; the later slots and
    every other field are as before.
  */
  lemma FullRun(c: SlaContract, users: seq<string>, comment: string, date: string)
    requires |c.approvals| >= 4 && |users| == 3
    ensures Submit(c).Some?
    ensures var s := Submit(c).value;
      && Approve(s, users[0], comment, date).Some?
      && var a := Approve(s, users[0], comment, date).value;
      && Approve(a, users[1], comment, date).Some?
      && var b := Approve(a, users[1], comment, date).value;
      && Close(b, users[2], comment, date).Some?
      && var f := Close(b, users[2], comment, date).value;
      && f.progression == Closed && SameTerms(f, c)
      && |f.approvals| == |c.approvals|
      && f.approvals[0].state == Submitted
      && f.approvals[1].state == Approved && f.approvals[1].userId == users[0]
      && f.approvals[2].state == Approved && f.approvals[2].userId == users[1]
      && f.approvals[3].state == Approved && f.approvals[3].userId == users[2]
      && forall j :: 4 <= j < |c.approvals| ==> f.approvals[j] == c.approvals[j]
  {
    var s := Submit(c).value;
    var a := Approve(s, users[0], comment, date).value;
    assert a.progression == ClientReview;
    var b := Approve(a, users[1], comment, date).value;
    assert b.progression == ClientManagerReview;
    var f := Close(b, users[2], comment, date).value;
    assert SameTerms(a, c) && SameTerms(b, c) && SameTerms(f, c);
  }

  /** A contract saved as TEMP can be submitted, but not approved, closed or rejected. */
  lemma TempOnlySubmits(c: SlaContract, userId: string, comment: string, date: string)
    requires |c.approvals| >= 1
    ensures Submit(SaveTemp(c)).Some?
    ensures Approve(SaveTemp(c), userId, comment, date).None?
    ensures Close(SaveTemp(c), userId, comment, date).None?
    ensures Reject(SaveTemp(c), userId, comment, date).None?
  {
  }

  /** A rejected contract can be resubmitted: it goes back to internal review, the rejection still on record. */
  lemma ResubmitAfterReject(c: SlaContract, userId: string, comment: string, date: string)
    requires Reject(c, userId, comment, date).Some?
    ensures var r := Reject(c, userId, comment, date).value;
      && Submit(r).Some?
      && Submit(r).value.progression == InternalReview
      && Submit(r).value.approvals[ReviewSlot(c.progression).value].state == Rejected
  {
  }
}
