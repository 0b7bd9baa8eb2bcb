/** The application views and the transition of compliance/ as methods that update one application in place. */
module ComplianceDesk {
  import opened Common
  import opened Rounding
  import opened ComplianceModel
  import opened ComplianceTheorems

  function ReplyOf(r: Result<Application>): Result<()> {
    match r
    case Ok(_) => Ok(())
    case Refused(code) => Refused(code)
  }

  function Left(r: Result<Application>, before: Application): Application {
    match r
    case Ok(a) => a
    case Refused(_) => before
  }

  class ApplicationFile {
    const sector: Sector
    const checklist: Checklist
    var status: Status
    var answered: set<Field>
    var personnel: nat
    var documents: map<string, Document>
    var conditions: seq<Condition>
    var notes: string
    var requirements: string
    var submittedAt: Option<int>
    var organisation: Organisation
    ghost var start: Application
    ghost var steps: seq<Step>

    function Contents(): Application
      reads this
    {
      Application(sector, checklist, status, answered, personnel, documents, conditions, notes, requirements,
                  submittedAt, organisation)
    }

    /** The file holds what its history of requests leaves. */
    ghost predicate Valid()
      reads this
    {
      JustCreated(start) && Contents() == Run(start, steps)
    }

    constructor (sector: Sector, checklist: Checklist, organisation: Organisation)
      requires checklist.required <= checklist.titles
      ensures Valid() && steps == [] && JustCreated(Contents())
      ensures this.organisation == organisation && this.sector == sector && this.checklist == checklist
    {
      this.sector, this.checklist, this.organisation := sector, checklist, organisation;
      status, answered, personnel, documents, conditions := Draft, {}, 0, map[], [];
      notes, requirements, submittedAt := "", "", None;
      start := Application(sector, checklist, Draft, {}, 0, map[], [], "", "", None, organisation);
      steps := [];
    }

    /** Whatever requests the file has handled, the theorems about reachable applications hold of it. */
    lemma IsReachable()
      requires Valid()
      ensures Reachable(Contents())
    {
    }

    // -------------------------------------------------------------- one request

    /** Every request is answered as the machine answers it, and is added to the history of the file. */
    method Handle(s: Step) returns (reply: Result<()>)
      requires Valid()
      modifies this
      ensures Valid() && start == old(start) && steps == old(steps) + [s]
      ensures reply == ReplyOf(Answer(old(Contents()), s)) && Contents() == After(old(Contents()), s)
    {
      reply := Dispatch(s);
      steps := steps + [s];
      assert steps[..|steps| - 1] == old(steps);
    }

    method Dispatch(s: Step) returns (reply: Result<()>)
      modifies `status, `answered, `personnel, `documents, `conditions, `notes, `requirements, `submittedAt,
        `organisation
      ensures var r := Answer(old(Contents()), s);
        reply == ReplyOf(r) && Contents() == Left(r, old(Contents()))
    {
      match s.action
      case DoSaveField(field, filled) => reply := SaveField(field, filled);
      case DoAddPerson => reply := AddPerson();
      case DoRemovePerson => reply := RemovePerson();
      case DoUpload(t, file) => reply := UploadDocument(t, file);
      case DoSubmit => reply := Submit(s.now);
      case DoDecide(target, text, given, more) => reply := Decide(s.now, target, text, given, more);
      case DoRequest(t) => reply := RequestDocument(s.now, t);
      case DoReviewDocument(t, accepted) => reply := ReviewDocument(s.now, t, accepted);
      case DoAddCondition => reply := AddCondition();
      case DoAnswerCondition(k) => reply := AnswerCondition(k);
      case DoReviewAnswer(k, e, convincing) => reply := ReviewAnswer(k, e, convincing);
    }

    // -------------------------------------------------------------- the application and its parts

    /** Moves the application and writes the outcome to the organisation. */
    method Transition(target: Status, now: Now, actor: Option<nat>) returns (reply: Result<()>)
      modifies `status, `organisation
      ensures var r := ComplianceModel.Transition(old(Contents()), target, now, actor);
        reply == ReplyOf(r) && Contents() == Left(r, old(Contents()))
    {
      if target !in Targets(status) {
        return Refused("invalid_application_transition");
      }
      status := target;
      organisation := organisation.(verification := VerificationOf(target));
      organisation := organisation.(verifiedAt := if target == Verified then Some(now.time) else None);
      organisation := organisation.(verifiedBy := actor);
      organisation := organisation.(reason := if target == Rejected then notes else "");
      organisation := organisation.(submittedAt := submittedAt);
      reply := Ok(());
    }

    method SaveField(field: Field, filled: bool) returns (reply: Result<()>)
      modifies `answered
      ensures var r := ComplianceModel.SaveField(old(Contents()), field, filled);
        reply == ReplyOf(r) && Contents() == Left(r, old(Contents()))
    {
      if !Editable(status) {
        return Refused(LOCKED);
      }
      answered := if filled then answered + {field} else answered - {field};
      reply := Ok(());
    }

    method AddPerson() returns (reply: Result<()>)
      modifies `personnel
      ensures var r := ComplianceModel.AddPerson(old(Contents()));
        reply == ReplyOf(r) && Contents() == Left(r, old(Contents()))
    {
      if status == Verified {
        return Refused(LOCKED);
      }
      personnel := personnel + 1;
      reply := Ok(());
    }

    method RemovePerson() returns (reply: Result<()>)
      modifies `personnel
      ensures var r := ComplianceModel.RemovePerson(old(Contents()));
        reply == ReplyOf(r) && Contents() == Left(r, old(Contents()))
    {
      if status == Verified {
        return Refused(LOCKED);
      }
      if personnel == 0 {
        return Refused(MISSING);
      }
      personnel := personnel - 1;
      reply := Ok(());
    }

    method UploadDocument(t: string, file: bool) returns (reply: Result<()>)
      modifies `documents
      ensures var r := ComplianceModel.UploadDocument(old(Contents()), t, file);
        reply == ReplyOf(r) && Contents() == Left(r, old(Contents()))
    {
      var locked := t in documents && documents[t].status == Accepted;
      if !(sector == Logistics && t in checklist.titles && !locked) {
        if status == Verified {
          return Refused(LOCKED);
        }
      }
      if !file {
        return Refused(INVALID);
      }
      if t !in checklist.titles && t !in documents {
        return Refused("unknown_document_type");
      }
      documents := documents[t := Document(Filed, true)];
      reply := Ok(());
    }

    method Submit(now: Now) returns (reply: Result<()>)
      modifies `status, `organisation, `submittedAt
      ensures var r := ComplianceModel.Submit(old(Contents()), now);
        reply == ReplyOf(r) && Contents() == Left(r, old(Contents()))
    {
      if !Editable(status) {
        return Refused(LOCKED);
      }
      if !now.account {
        return Refused("applicant_not_verified");
      }
      if SomeRefuted(documents) {
        return Refused("documents_rejected");
      }
      submittedAt := Some(now.time);
      reply := Transition(UnderReview, now, None);
    }

    /** The checks of a decision, in the order they are made. */
    method CheckDecision(now: Now, target: Status, more: nat) returns (refusal: Option<string>)
      ensures refusal == DecisionRefusal(Contents(), now, target, more)
    {
      if !InReviewState(status) {
        return Some("application_not_under_review");
      }
      if target == Draft || (target != ConditionallyApproved && more > 0) {
        return Some(INVALID);
      }
      if target == UnderReview {
        return Some("resubmission_required");
      }
      if target == Verified || target == ConditionallyApproved {
        if Percent(Checks(Contents(), now.account)) != 100 {
          return Some("application_incomplete");
        }
        if exists t | t in documents :: documents[t].status != Accepted {
          return Some("documents_not_verified");
        }
      }
      var outstanding := exists k | k in conditions :: k.status != Cleared;
      if target == ConditionallyApproved && more == 0 && !outstanding {
        return Some("conditions_required");
      }
      if target == Verified && requirements != "" && conditions == [] {
        return Some("conditions_required");
      }
      if target == Verified && outstanding {
        return Some("conditions_not_cleared");
      }
      refusal := None;
    }

    method IssueConditions(more: nat)
      modifies `conditions
      ensures conditions == Grow(old(conditions), more)
    {
      var i := 0;
      while i < more
        invariant i <= more && conditions == Grow(old(conditions), i)
      {
        conditions := conditions + [Condition(Pending, [])];
        i := i + 1;
      }
    }

    /** The notes are set before the transition is tried; a refusal puts the old ones back. */
    method Decide(now: Now, target: Status, text: string, given: Option<string>, more: nat) returns (reply: Result<()>)
      modifies `status, `organisation, `conditions, `notes, `requirements
      ensures var r := ComplianceModel.Decide(old(Contents()), now, target, text, given, more);
        reply == ReplyOf(r) && Contents() == Left(r, old(Contents()))
    {
      var refusal := CheckDecision(now, target, more);
      if refusal.Some? {
        return Refused(refusal.value);
      }
      var oldNotes, oldRequirements := notes, requirements;
      notes := text;
      if given.Some? {
        requirements := given.value;
      }
      reply := Transition(target, now, Some(now.user));
      if reply.Ok? {
        IssueConditions(more);
      } else {
        notes, requirements := oldNotes, oldRequirements;
      }
    }

    method RequestDocument(now: Now, t: string) returns (reply: Result<()>)
      modifies `status, `organisation, `documents
      ensures var r := ComplianceModel.RequestDocument(old(Contents()), now, t);
        reply == ReplyOf(r) && Contents() == Left(r, old(Contents()))
    {
      if !InReviewState(status) {
        return Refused("application_not_under_review");
      }
      if t in documents {
        documents := documents[t := documents[t].(status := Requested)];
      } else {
        documents := documents[t := Document(Requested, false)];
      }
      reply := Ok(());
      if status != ActionRequired {
        reply := Transition(ActionRequired, now, None);
      }
    }

    method ReviewDocument(now: Now, t: string, accepted: bool) returns (reply: Result<()>)
      modifies `status, `organisation, `documents
      ensures var r := ComplianceModel.ReviewDocument(old(Contents()), now, t, accepted);
        reply == ReplyOf(r) && Contents() == Left(r, old(Contents()))
    {
      if !InReviewState(status) {
        return Refused("application_not_under_review");
      }
      if t !in documents {
        return Refused(MISSING);
      }
      var document := documents[t];
      if !document.file || document.status != Filed {
        return Refused("document_not_submitted");
      }
      document := document.(status := if accepted then Accepted else Refuted);
      documents := documents[t := document];
      reply := Ok(());
      if document.status == Refuted && status != ActionRequired {
        reply := Transition(ActionRequired, now, None);
      }
    }

    method AddCondition() returns (reply: Result<()>)
      modifies `conditions
      ensures var r := ComplianceModel.AddCondition(old(Contents()));
        reply == ReplyOf(r) && Contents() == Left(r, old(Contents()))
    {
      if !InReviewState(status) {
        return Refused("application_not_under_review");
      }
      conditions := conditions + [Condition(Pending, [])];
      reply := Ok(());
    }

    method AnswerCondition(k: nat) returns (reply: Result<()>)
      modifies `conditions
      ensures var r := ComplianceModel.AnswerCondition(old(Contents()), k);
        reply == ReplyOf(r) && Contents() == Left(r, old(Contents()))
    {
      if status != ConditionallyApproved && status != ActionRequired {
        return Refused(LOCKED);
      }
      if k >= |conditions| {
        return Refused(MISSING);
      }
      var condition := conditions[k];
      if condition.status != Pending && condition.status != Unanswered {
        return Refused("condition_locked");
      }
      condition := condition.(evidence := condition.evidence + [Waiting]);
      condition := condition.(status := Answered);
      conditions := conditions[k := condition];
      reply := Ok(());
    }

    method ReviewAnswer(k: nat, e: nat, convincing: bool) returns (reply: Result<()>)
      modifies `conditions
      ensures var r := ComplianceModel.ReviewAnswer(old(Contents()), k, e, convincing);
        reply == ReplyOf(r) && Contents() == Left(r, old(Contents()))
    {
      if !InReviewState(status) {
        return Refused("application_not_under_review");
      }
      if k >= |conditions| || e >= |conditions[k].evidence| {
        return Refused(MISSING);
      }
      var condition := conditions[k];
      if condition.status != Answered || condition.evidence[e] != Waiting {
        return Refused("evidence_not_submitted");
      }
      condition := condition.(evidence := condition.evidence[e := if convincing then Convincing else Unconvincing]);
      condition := condition.(status := if convincing then Cleared else Unanswered);
      conditions := conditions[k := condition];
      reply := Ok(());
    }
  }
}
