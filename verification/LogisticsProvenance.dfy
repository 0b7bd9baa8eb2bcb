/**
 * Where things come from: behind every verdict, clearance and approval in a reachable file there is the
 * request that earned it.
 */
module LogisticsProvenance {
  import opened Common
  import opened LogisticsModel
  import opened LogisticsHistory
  import opened LogisticsTheorems

  /** The file before request `i` of a run. */
  ghost function At(start: Company, steps: seq<Step>, i: nat): Company
    requires i <= |steps|
  {
    Run(start, steps[..i])
  }

  lemma AtPrefix(start: Company, steps: seq<Step>, i: nat)
    requires steps != [] && i < |steps|
    ensures At(start, steps[..|steps| - 1], i) == At(start, steps, i)
    ensures i + 1 < |steps| ==> At(start, steps[..|steps| - 1], i + 1) == At(start, steps, i + 1)
  {
    var init := steps[..|steps| - 1];
    assert init[..i] == steps[..i];
    if i + 1 < |steps| {
      assert init[..i + 1] == steps[..i + 1];
    }
  }

  lemma AtEnd(start: Company, steps: seq<Step>)
    requires steps != []
    ensures At(start, steps, |steps| - 1) == Run(start, steps[..|steps| - 1])
    ensures At(start, steps, |steps|) == Run(start, steps) == After(At(start, steps, |steps| - 1), steps[|steps| - 1])
  {
    assert steps[..|steps|] == steps;
  }

  // ---------------------------------------------------------------- verified documents

  /** Request `i` verified document `d`, which was then current, unreviewed and in date. */
  ghost predicate VerifiedAt(start: Company, steps: seq<Step>, i: nat, d: nat) {
    && i < |steps| && steps[i].action == DoReviewDocument(d, true)
    && var c := At(start, steps, i);
    && d < |c.documents| && c.documents[d].current && c.documents[d].status == Unreviewed
    && !Lapsed(c.documents[d].expires, steps[i].now.today)
  }

  lemma NewDocumentsUnreviewed(c: Company, s: Step, d: nat)
    requires |c.documents| <= d < |After(c, s).documents|
    ensures After(c, s).documents[d].status == Unreviewed
  {
    RequestFrame(c, s);
  }

  /** Every verified document of a run was verified by a review while it was current and in date. */
  lemma {:induction false} VerifiedHasReview(start: Company, steps: seq<Step>, d: nat)
    requires start.documents == [] && d < |Run(start, steps).documents|
      && Run(start, steps).documents[d].status == Verified
    ensures exists i: nat :: VerifiedAt(start, steps, i, d)
  {
    var init, last := steps[..|steps| - 1], steps[|steps| - 1];
    var c := Run(start, init);
    AtEnd(start, steps);
    if d < |c.documents| && c.documents[d].status == Verified {
      VerifiedHasReview(start, init, d);
      var i: nat :| VerifiedAt(start, init, i, d);
      AtPrefix(start, steps, i);
      assert VerifiedAt(start, steps, i, d);
    } else if d < |c.documents| {
      VerifiedByReview(c, last, d);
      DocumentsContinue(c, last);
      assert DocumentKept(c.documents[d], After(c, last).documents[d]);
      assert VerifiedAt(start, steps, |init|, d);
    } else {
      NewDocumentsUnreviewed(c, last, d);
    }
  }

  // ---------------------------------------------------------------- cleared conditions

  /**
   * Request `i` cleared condition `k`, when some current document answered it and all that did were verified
   * and in date.
   */
  ghost predicate ClearedAt(start: Company, steps: seq<Step>, i: nat, k: nat) {
    && i < |steps| && steps[i].action == DoClearCondition(k)
    && var c := At(start, steps, i);
    && k < |c.conditions| && !c.conditions[k].cleared
    && (exists d | d in c.documents :: d.current && d.condition == Some(k))
    && (forall d | d in c.documents && d.current && d.condition == Some(k) ::
          d.status == Verified && !Lapsed(d.expires, steps[i].now.today))
  }

  lemma {:induction false} AddedConditionsOpen(c: Company, scopes: seq<string>)
    ensures AddConditions(c, scopes).Ok? ==>
      var conditions := AddConditions(c, scopes).value.conditions;
      |conditions| >= |c.conditions| && forall k | |c.conditions| <= k < |conditions| :: !conditions[k].cleared
  {
    if scopes != [] {
      AddedConditionsOpen(c, scopes[..|scopes| - 1]);
    }
  }

  lemma NewConditionsOpen(c: Company, s: Step, k: nat)
    requires |c.conditions| <= k < |After(c, s).conditions|
    ensures !After(c, s).conditions[k].cleared
  {
    RequestFrame(c, s);
    if s.action.DoDecide? {
      AddedConditionsOpen(c, s.action.scopes);
    }
  }

  /** Every cleared condition of a run was cleared on current, verified evidence in date. */
  lemma {:induction false} ClearedHasEvidence(start: Company, steps: seq<Step>, k: nat)
    requires start.conditions == [] && k < |Run(start, steps).conditions| && Run(start, steps).conditions[k].cleared
    ensures exists i: nat :: ClearedAt(start, steps, i, k)
  {
    var init, last := steps[..|steps| - 1], steps[|steps| - 1];
    var c := Run(start, init);
    AtEnd(start, steps);
    if k < |c.conditions| && c.conditions[k].cleared {
      ClearedHasEvidence(start, init, k);
      var i: nat :| ClearedAt(start, init, i, k);
      AtPrefix(start, steps, i);
      assert ClearedAt(start, steps, i, k);
    } else if k < |c.conditions| {
      ClearedOnEvidence(c, last, k);
      assert ClearedAt(start, steps, |init|, k);
    } else {
      NewConditionsOpen(c, last, k);
    }
  }

  // ---------------------------------------------------------------- closed requests for information

  /** Request `i` closed inquiry `q`: by withdrawal, or on a last response that was convincing. */
  ghost predicate ClosedAt(start: Company, steps: seq<Step>, i: nat, q: nat) {
    && i < |steps|
    && var c := At(start, steps, i);
    && q < |c.inquiries| && c.inquiries[q].status != Closed
    && (steps[i].action == DoWithdraw(q)
        || (steps[i].action == DoReviewResponse(q, true) && c.inquiries[q].responses != []
            && Convincing(c.documents, c.inquiries[q].responses[|c.inquiries[q].responses| - 1], steps[i].now.today)))
  }

  lemma NewInquiriesOpen(c: Company, s: Step, q: nat)
    requires |c.inquiries| <= q < |After(c, s).inquiries|
    ensures After(c, s).inquiries[q].status == Open
  {
    RequestFrame(c, s);
  }

  /** Every closed request of a run was withdrawn, or closed on evidence that was current, verified and in date. */
  lemma {:induction false} ClosedHasReason(start: Company, steps: seq<Step>, q: nat)
    requires start.inquiries == [] && q < |Run(start, steps).inquiries|
      && Run(start, steps).inquiries[q].status == Closed
    ensures exists i: nat :: ClosedAt(start, steps, i, q)
  {
    var init, last := steps[..|steps| - 1], steps[|steps| - 1];
    var c := Run(start, init);
    AtEnd(start, steps);
    if q < |c.inquiries| && c.inquiries[q].status == Closed {
      ClosedHasReason(start, init, q);
      var i: nat :| ClosedAt(start, init, i, q);
      AtPrefix(start, steps, i);
      assert ClosedAt(start, steps, i, q);
    } else if q < |c.inquiries| {
      ClosedOnEvidence(c, last, q);
      assert ClosedAt(start, steps, |init|, q);
    } else {
      NewInquiriesOpen(c, last, q);
    }
  }

  // ---------------------------------------------------------------- approvals

  /** Request `i` granted full approval to a file that met every gate, and the file has been approved ever since. */
  ghost predicate ApprovedAt(start: Company, steps: seq<Step>, i: nat) {
    && i < |steps| && steps[i].action == DoDecide(Approved, [])
    && Approvable(At(start, steps, i), steps[i].now)
    && forall j | i < j <= |steps| :: At(start, steps, j).status == Approved
  }

  ghost predicate Approvable(c: Company, now: Now) {
    && (c.status == UnderReview || c.status == ConditionallyApproved)
    && ReadyToSubmit(c, now) && FullyVerified(c.documents)
    && (forall d | d in c.sections && c.sections[d].applicable :: c.sections[d].verdict == Passed)
    && (forall k | k in c.conditions :: k.cleared) && (forall r | r in c.restrictions :: r.resolved)
  }

  lemma DecisionApproves(c: Company, s: Step)
    requires c.status != Approved && After(c, s).status == Approved
    ensures s.action == DoDecide(Approved, []) && Approvable(c, s.now)
  {
    StatusEdges(c, s);
    ApproveExactly(c, s.now, s.action.scopes);
  }

  lemma ApprovedLater(start: Company, steps: seq<Step>, i: nat)
    requires steps != [] && Run(start, steps).status == Approved && ApprovedAt(start, steps[..|steps| - 1], i)
    ensures ApprovedAt(start, steps, i)
  {
    var init := steps[..|steps| - 1];
    AtEnd(start, steps);
    AtPrefix(start, steps, i);
    forall j | i < j <= |steps|
      ensures At(start, steps, j).status == Approved
    {
      if j < |steps| {
        AtPrefix(start, steps, j);
        assert At(start, init, j).status == Approved;
      }
    }
  }

  /** Behind every approved file stands one decision on a file that met every gate, with no other status in between. */
  lemma {:induction false} ApprovalHasDecision(start: Company, steps: seq<Step>)
    requires start.status == Draft && Run(start, steps).status == Approved
    ensures exists i: nat :: ApprovedAt(start, steps, i)
  {
    var init := steps[..|steps| - 1];
    if Run(start, init).status == Approved {
      ApprovalHasDecision(start, init);
      var i: nat :| ApprovedAt(start, init, i);
      ApprovedLater(start, steps, i);
    } else {
      ApprovedNow(start, steps);
    }
  }

  lemma ApprovedNow(start: Company, steps: seq<Step>)
    requires steps != [] && Run(start, steps).status == Approved
    requires Run(start, steps[..|steps| - 1]).status != Approved
    ensures ApprovedAt(start, steps, |steps| - 1)
  {
    AtEnd(start, steps);
    DecisionApproves(Run(start, steps[..|steps| - 1]), steps[|steps| - 1]);
  }
}
