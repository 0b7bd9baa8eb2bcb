/** The onboarding application of compliance/: its transition table, its documents and its approval conditions. */
module ComplianceModel {
  import opened Common
  import opened Rounding

  datatype Status = Draft | UnderReview | ActionRequired | ConditionallyApproved | Verified | Rejected

  datatype Sector = Ordinary | Logistics | Quality

  /** The checklist of a sector: the document types it knows, and those it requires. */
  datatype Checklist = Checklist(titles: set<string>, required: set<string>)

  datatype DocumentStatus = Requested | Filed | Accepted | Refuted

  datatype Document = Document(status: DocumentStatus, file: bool)

  datatype EvidenceStatus = Waiting | Convincing | Unconvincing

  datatype ConditionStatus = Pending | Answered | Unanswered | Cleared

  datatype Condition = Condition(status: ConditionStatus, evidence: seq<EvidenceStatus>)

  /** The parts of the onboarding form that the progress report looks at. */
  datatype Field =
    | OrganisationProfile | Representative | Services | ProfessionalCapability | InspectionCapability
    | ConflictDeclaration | Declaration | QualityOrganisation | QualityServices | QualityAccreditation
    | QualityTesting | QualitySampling | QualitySignature

  datatype Verification = Unverified | InReview | VerifiedOrganisation | RejectedOrganisation

  datatype Organisation = Organisation(
    verification: Verification, verifiedAt: Option<int>, verifiedBy: Option<nat>, reason: string,
      submittedAt: Option<int>)

  datatype Application = Application(
    sector: Sector, checklist: Checklist, status: Status, answered: set<Field>, personnel: nat,
      documents: map<string, Document>,
    conditions: seq<Condition>, notes: string, requirements: string, submittedAt: Option<int>,
      organisation: Organisation)

  /**
   * The time of a request, who makes it, and whether the applicant's account is active with a verified address
   * then.
   */
  datatype Now = Now(time: int, user: nat, account: bool)

  const CONFLICT := "conflict"
  const LOCKED := "application_locked"
  const INVALID := "validation_error"
  const MISSING := "not_found"

  // ---------------------------------------------------------------- the transition table

  function Targets(s: Status): set<Status> {
    match s
    case Draft => {UnderReview}
    case UnderReview => {ActionRequired, ConditionallyApproved, Verified, Rejected}
    case ActionRequired => {UnderReview, ConditionallyApproved, Verified, Rejected}
    case ConditionallyApproved => {ActionRequired, Verified, Rejected}
    case Rejected => {UnderReview}
    case Verified => {}
  }

  predicate InReviewState(s: Status) {
    s == UnderReview || s == ActionRequired || s == ConditionallyApproved
  }

  predicate Editable(s: Status) {
    s == Draft || s == ActionRequired || s == Rejected
  }

  function VerificationOf(s: Status): Verification {
    match s
    case Verified => VerifiedOrganisation
    case Rejected => RejectedOrganisation
    case _ => InReview
  }

  function Transition(a: Application, target: Status, now: Now, actor: Option<nat>): Result<Application> {
    if target !in Targets(a.status) then Refused("invalid_application_transition")
    else Ok(a.(status := target, organisation := Organisation(
      VerificationOf(target),
      if target == Verified then Some(now.time) else None,
      actor,
      if target == Rejected then a.notes else "",
      a.submittedAt)))
  }

  // ---------------------------------------------------------------- progress

  predicate Supplied(documents: map<string, Document>, t: string) {
    t in documents && documents[t].file && (documents[t].status == Filed || documents[t].status == Accepted)
  }

  predicate DocumentsReady(a: Application) {
    && (forall t | t in a.checklist.required :: Supplied(a.documents, t))
    && (forall t | t in a.documents :: Supplied(a.documents, t))
  }

  /** The sections of the progress report, in order. */
  function Checks(a: Application, account: bool): seq<bool> {
    if a.sector == Quality then
      [account, QualityOrganisation in a.answered, QualityServices in a.answered, QualityAccreditation in a.answered,
       QualityTesting in a.answered, QualitySampling in a.answered, DocumentsReady(a), QualitySignature in a.answered]
    else
      [account,
       OrganisationProfile in a.answered && Representative in a.answered && Services in a.answered
         && ProfessionalCapability in a.answered,
       DocumentsReady(a), a.personnel > 0, InspectionCapability in a.answered, ConflictDeclaration in a.answered,
         Declaration in a.answered]
  }

  predicate SomeRefuted(documents: map<string, Document>) {
    exists t | t in documents :: documents[t].status == Refuted
  }

  predicate AllAccepted(documents: map<string, Document>) {
    forall t | t in documents :: documents[t].status == Accepted
  }

  predicate AllCleared(conditions: seq<Condition>) {
    forall k | k in conditions :: k.status == Cleared
  }

  // ---------------------------------------------------------------- the applicant

  function SaveField(a: Application, field: Field, filled: bool): Result<Application> {
    if !Editable(a.status) then Refused(LOCKED)
    else Ok(a.(answered := if filled then a.answered + {field} else a.answered - {field}))
  }

  function AddPerson(a: Application): Result<Application> {
    if a.status == Verified then Refused(LOCKED) else Ok(a.(personnel := a.personnel + 1))
  }

  function RemovePerson(a: Application): Result<Application> {
    if a.status == Verified then Refused(LOCKED)
    else if a.personnel == 0 then Refused(MISSING)
    else Ok(a.(personnel := a.personnel - 1))
  }

  function UploadDocument(a: Application, t: string, file: bool): Result<Application> {
    var supplement := a.sector == Logistics && t in a.checklist.titles
      && !(t in a.documents && a.documents[t].status == Accepted);
    if !supplement && a.status == Verified then Refused(LOCKED)
    else if !file then Refused(INVALID)
    else if t !in a.checklist.titles && t !in a.documents then Refused("unknown_document_type")
    else Ok(a.(documents := a.documents[t := Document(Filed, true)]))
  }

  function Submit(a: Application, now: Now): Result<Application> {
    if !Editable(a.status) then Refused(LOCKED)
    else if !now.account then Refused("applicant_not_verified")
    else if SomeRefuted(a.documents) then Refused("documents_rejected")
    else Transition(a.(submittedAt := Some(now.time)), UnderReview, now, None)
  }

  // ---------------------------------------------------------------- the desk

  function Grow(conditions: seq<Condition>, more: nat): seq<Condition> {
    if more == 0 then conditions else Grow(conditions, more - 1) + [Condition(Pending, [])]
  }

  /** The refusal of a decision, before it is written, if any. */
  function DecisionRefusal(a: Application, now: Now, target: Status, more: nat): Option<string> {
    if !InReviewState(a.status) then Some("application_not_under_review")
    else if target == Draft || (target != ConditionallyApproved && more > 0) then Some(INVALID)
    else if target == UnderReview then Some("resubmission_required")
    else if (target == Verified || target == ConditionallyApproved) && Percent(Checks(a, now.account)) != 100
      then Some("application_incomplete")
    else if (target == Verified || target == ConditionallyApproved) && !AllAccepted(a.documents)
      then Some("documents_not_verified")
    else if target == ConditionallyApproved && more == 0 && AllCleared(a.conditions) then Some("conditions_required")
    else if target == Verified && a.requirements != "" && a.conditions == [] then Some("conditions_required")
    else if target == Verified && !AllCleared(a.conditions) then Some("conditions_not_cleared")
    else None
  }

  /** `requirements` is kept when the decision does not give any; `more` conditions come with it. */
  function Decide(
      a: Application, now: Now, target: Status, notes: string, requirements: Option<string>, more: nat)
      : Result<Application> {
    match DecisionRefusal(a, now, target, more)
    case Some(code) => Refused(code)
    case None =>
      var noted := a.(
        notes := notes, requirements := if requirements.Some? then requirements.value else a.requirements);
      match Transition(noted, target, now, Some(now.user))
      case Refused(code) => Refused(code)
      case Ok(moved) => Ok(moved.(conditions := Grow(moved.conditions, more)))
  }

  function RequestDocument(a: Application, now: Now, t: string): Result<Application> {
    if !InReviewState(a.status) then Refused("application_not_under_review")
    else
      var asked := a.(documents := a.documents[t := Document(Requested, t in a.documents && a.documents[t].file)]);
      if a.status == ActionRequired then Ok(asked) else Transition(asked, ActionRequired, now, None)
  }

  function ReviewDocument(a: Application, now: Now, t: string, accepted: bool): Result<Application> {
    if !InReviewState(a.status) then Refused("application_not_under_review")
    else if t !in a.documents then Refused(MISSING)
    else if !a.documents[t].file || a.documents[t].status != Filed then Refused("document_not_submitted")
    else
      var read := a.(documents := a.documents[t := a.documents[t].(status := if accepted then Accepted else Refuted)]);
      if accepted || a.status == ActionRequired then Ok(read) else Transition(read, ActionRequired, now, None)
  }

  // ---------------------------------------------------------------- conditions

  function AddCondition(a: Application): Result<Application> {
    if !InReviewState(a.status) then Refused("application_not_under_review")
    else Ok(a.(conditions := a.conditions + [Condition(Pending, [])]))
  }

  function AnswerCondition(a: Application, k: nat): Result<Application> {
    if a.status != ConditionallyApproved && a.status != ActionRequired then Refused(LOCKED)
    else if k >= |a.conditions| then Refused(MISSING)
    else if a.conditions[k].status != Pending && a.conditions[k].status != Unanswered then Refused("condition_locked")
    else Ok(a.(conditions := a.conditions[k := Condition(Answered, a.conditions[k].evidence + [Waiting])]))
  }

  function ReviewAnswer(a: Application, k: nat, e: nat, convincing: bool): Result<Application> {
    if !InReviewState(a.status) then Refused("application_not_under_review")
    else if k >= |a.conditions| || e >= |a.conditions[k].evidence| then Refused(MISSING)
    else if a.conditions[k].status != Answered || a.conditions[k].evidence[e] != Waiting
      then Refused("evidence_not_submitted")
    else Ok(a.(conditions := a.conditions[k := Condition(
      if convincing then Cleared else Unanswered,
      a.conditions[k].evidence[e := if convincing then Convincing else Unconvincing])]))
  }

  // ---------------------------------------------------------------- requests and runs

  datatype Action =
    | DoSaveField(field: Field, filled: bool)
    | DoAddPerson
    | DoRemovePerson
    | DoUpload(document: string, file: bool)
    | DoSubmit
    | DoDecide(target: Status, notes: string, requirements: Option<string>, more: nat)
    | DoRequest(document: string)
    | DoReviewDocument(document: string, accepted: bool)
    | DoAddCondition
    | DoAnswerCondition(condition: nat)
    | DoReviewAnswer(condition: nat, evidence: nat, convincing: bool)

  datatype Step = Step(now: Now, action: Action)

  function Answer(a: Application, s: Step): Result<Application> {
    match s.action
    case DoSaveField(field, filled) => SaveField(a, field, filled)
    case DoAddPerson => AddPerson(a)
    case DoRemovePerson => RemovePerson(a)
    case DoUpload(t, file) => UploadDocument(a, t, file)
    case DoSubmit => Submit(a, s.now)
    case DoDecide(target, notes, requirements, more) => Decide(a, s.now, target, notes, requirements, more)
    case DoRequest(t) => RequestDocument(a, s.now, t)
    case DoReviewDocument(t, accepted) => ReviewDocument(a, s.now, t, accepted)
    case DoAddCondition => AddCondition(a)
    case DoAnswerCondition(k) => AnswerCondition(a, k)
    case DoReviewAnswer(k, e, convincing) => ReviewAnswer(a, k, e, convincing)
  }

  /** A refused request changes nothing. */
  function After(a: Application, s: Step): Application {
    match Answer(a, s)
    case Ok(a') => a'
    case Refused(_) => a
  }

  function Run(a: Application, steps: seq<Step>): Application {
    if steps == [] then a else After(Run(a, steps[..|steps| - 1]), steps[|steps| - 1])
  }

  /** An application that has just been created, in whatever state its organisation is. */
  predicate JustCreated(a: Application) {
    && a.status == Draft && a.answered == {} && a.personnel == 0 && a.documents == map[] && a.conditions == []
    && a.notes == "" && a.requirements == "" && a.submittedAt == None && a.checklist.required <= a.checklist.titles
  }
}
