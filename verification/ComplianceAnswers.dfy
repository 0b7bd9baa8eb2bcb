/**
 * What each request of the onboarding desk asks for, what it leaves and why it is refused, in the application's own
 * fields: a specification of the requests that shares none of their helpers.
 */
module ComplianceAnswers {
  import opened Common
  import opened ComplianceModel
  import opened ComplianceTheorems

  /** Where the applicant may edit the form, and where the desk may act. */
  const WITH_APPLICANT: set<Status> := {Draft, ActionRequired, Rejected}
  const WITH_DESK: set<Status> := {UnderReview, ActionRequired, ConditionallyApproved}

  /** The organisation's record once the application is back in review. */
  function BackInReview(submittedAt: Option<int>): Organisation {
    Organisation(InReview, None, None, "", submittedAt)
  }

  /** The file waits for the applicant; the organisation's record is written only when it did not before. */
  ghost predicate WaitsFor(a: Application, documents: map<string, Document>, a': Application) {
    if a.status == ActionRequired then a' == a.(documents := documents)
    else a' == a.(documents := documents, status := ActionRequired, organisation := BackInReview(a.submittedAt))
  }

  /** A file not there to be reviewed, a record that is not there, or else the guard with this code. */
  ghost predicate WhyAtDesk(a: Application, found: bool, own: string, code: string) {
    if code == "application_not_under_review" then a.status !in WITH_DESK
    else if code == MISSING then !found
    else code == own && a.status in WITH_DESK && found
  }

  // ---------------------------------------------------------------- the applicant

  lemma SaveFieldExactly(a: Application, field: Field, filled: bool)
    ensures var r := SaveField(a, field, filled); r.Ok? ==>
      && a.status in WITH_APPLICANT && r.value == a.(answered := r.value.answered)
      && forall f :: f in r.value.answered <==> if f == field then filled else f in a.answered
    ensures var r := SaveField(a, field, filled); r.Refused? ==> r.code == LOCKED && a.status !in WITH_APPLICANT
  {
  }

  lemma PersonnelExactly(a: Application)
    ensures AddPerson(a) == if a.status == Verified then Refused(LOCKED) else Ok(a.(personnel := a.personnel + 1))
    ensures RemovePerson(a) == if a.status == Verified then Refused(LOCKED)
      else if a.personnel == 0 then Refused(MISSING) else Ok(a.(personnel := a.personnel - 1))
  {
  }

  /** A supplement to the logistics checklist, which is taken until the document has been accepted. */
  ghost predicate IsSupplement(a: Application, t: string) {
    a.sector == Logistics && t in a.checklist.titles && (t in a.documents ==> a.documents[t].status != Accepted)
  }

  /** A verified application takes supplements only, and any other what is on the checklist or was asked for. */
  lemma UploadExactly(a: Application, t: string, file: bool)
    ensures var r := UploadDocument(a, t, file);
      && (r.Ok? <==>
            file && (a.status == Verified ==> IsSupplement(a, t)) && (t in a.checklist.titles || t in a.documents))
      && (r.Ok? ==> r.value == a.(documents := a.documents[t := Document(Filed, true)]))
      && (r.Refused? ==>
            if r.code == LOCKED then a.status == Verified && !IsSupplement(a, t)
            else if r.code == INVALID then !file
            else r.code == "unknown_document_type" && t !in a.checklist.titles && t !in a.documents)
  {
  }

  ghost predicate NothingRefuted(a: Application) {
    forall t | t in a.documents :: a.documents[t].status != Refuted
  }

  lemma SubmitExactly(a: Application, now: Now)
    ensures var r := Submit(a, now);
      && (r.Ok? <==> a.status in WITH_APPLICANT && now.account && NothingRefuted(a))
      && (r.Ok? ==> r.value == a.(status := UnderReview, submittedAt := Some(now.time),
                                  organisation := BackInReview(Some(now.time))))
      && (r.Refused? ==>
            if r.code == LOCKED then a.status !in WITH_APPLICANT
            else if r.code == "applicant_not_verified" then !now.account
            else r.code == "documents_rejected" && !NothingRefuted(a))
  {
  }

  // ---------------------------------------------------------------- decisions

  ghost predicate GrantsDecision(a: Application, now: Now, target: Status, more: nat) {
    match target
    case Verified =>
      && a.status in WITH_DESK && more == 0 && Complete(a, now.account) && EachAccepted(a)
      && (forall k | k in a.conditions :: k.status == Cleared) && (a.requirements == "" || a.conditions != [])
    case ConditionallyApproved =>
      && a.status in {UnderReview, ActionRequired} && Complete(a, now.account) && EachAccepted(a)
      && (more > 0 || exists k | k in a.conditions :: k.status != Cleared)
    case ActionRequired => a.status in {UnderReview, ConditionallyApproved} && more == 0
    case Rejected => a.status in WITH_DESK && more == 0
    case _ => false
  }

  /** What a decision makes of the organisation's record. */
  function Decided(a: Application, now: Now, target: Status, notes: string): Organisation {
    Organisation(
      if target == Verified then VerifiedOrganisation
        else if target == Rejected then RejectedOrganisation
        else InReview,
      if target == Verified then Some(now.time) else None,
      Some(now.user),
      if target == Rejected then notes else "",
      a.submittedAt)
  }

  ghost predicate LeavesDecision(
      a: Application, now: Now, target: Status, notes: string, requirements: Option<string>, more: nat,
      a': Application) {
    && a' == a.(status := target, notes := notes, conditions := a'.conditions, requirements :=
                  if requirements.Some? then requirements.value else a.requirements,
                organisation := Decided(a, now, target, notes))
    && |a'.conditions| == |a.conditions| + more
    && forall k | 0 <= k < |a'.conditions| ::
         a'.conditions[k] == if k < |a.conditions| then a.conditions[k] else Condition(Pending, [])
  }

  /** Every decision: when it is granted, and the whole of what it writes. */
  lemma DecideExactly(
      a: Application, now: Now, target: Status, notes: string, requirements: Option<string>, more: nat)
    ensures var r := Decide(a, now, target, notes, requirements, more);
      && (r.Ok? <==> GrantsDecision(a, now, target, more))
      && (r.Ok? ==> LeavesDecision(a, now, target, notes, requirements, more, r.value))
  {
    GrowShape(a.conditions, more);
    match target
    case Verified => VerifyExactly(a, now, notes, requirements, more);
    case ConditionallyApproved => ApproveConditionallyExactly(a, now, notes, requirements, more);
    case _ =>
  }

  ghost predicate WhyDecision(a: Application, now: Now, target: Status, more: nat, code: string) {
    if code == "application_not_under_review" then a.status !in WITH_DESK
    else if code == INVALID then target == Draft || (more > 0 && target != ConditionallyApproved)
    else if code == "resubmission_required" then target == UnderReview
    else if code == "invalid_application_transition" then a.status == target
    else WhyNotApproved(a, now, target, more, code)
  }

  ghost predicate WhyNotApproved(a: Application, now: Now, target: Status, more: nat, code: string) {
    if code == "application_incomplete" then !Complete(a, now.account)
    else if code == "documents_not_verified" then !EachAccepted(a)
    else if code == "conditions_not_cleared" then exists k | k in a.conditions :: k.status != Cleared
    else
      && code == "conditions_required"
      && if target == Verified then a.requirements != "" && a.conditions == []
         else more == 0 && forall k | k in a.conditions :: k.status == Cleared
  }

  lemma GateRefusals(a: Application, now: Now, target: Status, more: nat)
    ensures var r := DecisionRefusal(a, now, target, more); r.Some? ==> WhyDecision(a, now, target, more, r.value)
  {
    ProgressExact(a, now.account);
  }

  /** The code of a refused decision names a reason that holds. */
  lemma DecisionRefusals(
      a: Application, now: Now, target: Status, notes: string, requirements: Option<string>, more: nat)
    ensures var r := Decide(a, now, target, notes, requirements, more);
      r.Refused? ==> WhyDecision(a, now, target, more, r.code)
  {
    GateRefusals(a, now, target, more);
  }

  // ---------------------------------------------------------------- documents

  lemma RequestExactly(a: Application, now: Now, t: string)
    ensures var r := RequestDocument(a, now, t);
      && (r.Ok? <==> a.status in WITH_DESK)
      && (r.Ok? ==>
            WaitsFor(a, a.documents[t := Document(Requested, t in a.documents && a.documents[t].file)], r.value))
      && (r.Refused? ==> r.code == "application_not_under_review")
  {
  }

  /** A verdict on a document is the verdict given, on a filed document, and a refusal sends the file back. */
  lemma ReviewDocumentExactly(a: Application, now: Now, t: string, accepted: bool)
    ensures var r := ReviewDocument(a, now, t, accepted);
      && (r.Ok? <==> a.status in WITH_DESK && t in a.documents && a.documents[t] == Document(Filed, true))
      && (r.Ok? ==>
            var documents := a.documents[t := Document(if accepted then Accepted else Refuted, true)];
            if accepted then r.value == a.(documents := documents) else WaitsFor(a, documents, r.value))
      && (r.Refused? ==> WhyAtDesk(a, t in a.documents, "document_not_submitted", r.code))
  {
  }

  // ---------------------------------------------------------------- conditions

  lemma AddConditionExactly(a: Application)
    ensures AddCondition(a) == if a.status in WITH_DESK
      then Ok(a.(conditions := a.conditions + [Condition(Pending, [])]))
      else Refused("application_not_under_review")
  {
  }

  lemma AnswerConditionExactly(a: Application, k: nat)
    ensures var r := AnswerCondition(a, k);
      && (r.Ok? <==>
            && a.status in {ConditionallyApproved, ActionRequired} && k < |a.conditions|
            && a.conditions[k].status in {ConditionStatus.Pending, Unanswered})
      && (r.Ok? ==>
            var evidence := a.conditions[k].evidence + [Waiting];
            r.value == a.(conditions := a.conditions[k := Condition(Answered, evidence)]))
      && (r.Refused? ==>
            if r.code == LOCKED then a.status !in {ConditionallyApproved, ActionRequired}
            else if r.code == MISSING then k >= |a.conditions|
            else r.code == "condition_locked" && k < |a.conditions| && a.conditions[k].status in {Answered, Cleared})
  {
  }

  /** A verdict on evidence is the verdict given, on a waiting piece, and clears the condition only if convincing. */
  lemma ReviewAnswerExactly(a: Application, k: nat, e: nat, convincing: bool)
    ensures var r := ReviewAnswer(a, k, e, convincing);
      && (r.Ok? <==>
            && a.status in WITH_DESK && k < |a.conditions| && e < |a.conditions[k].evidence|
            && a.conditions[k].status == Answered && a.conditions[k].evidence[e] == Waiting)
      && (r.Ok? ==>
            var evidence := a.conditions[k].evidence;
            r.value == a.(conditions := a.conditions[k :=
              if convincing then Condition(Cleared, evidence[e := Convincing])
              else Condition(Unanswered, evidence[e := Unconvincing])]))
      && (r.Refused? ==>
            WhyAtDesk(a, k < |a.conditions| && e < |a.conditions[k].evidence|, "evidence_not_submitted", r.code))
  {
  }
}
