/** What a request may touch, and what stays on record: documents, verdicts, closed requests and restrictions. */
module LogisticsHistory {
  import opened Common
  import opened LogisticsModel
  import opened LogisticsMonitor

  // ---------------------------------------------------------------- the part of the file a request works on

  datatype Part = Operations | Profile | Progress | Inquiries | Evidences | Decisions | Restraints

  function PartOf(a: Action): Part {
    match a
    case DoPlaceOrder(_) | DoAcceptOrder(_) | DoDeclineOrder(_) | DoAssign(_, _, _) | DoSetStatus(_, _)
       | DoSaveVehicle(_, _) | DoSaveDriver(_, _) => Operations
    case DoEditCompany(_, _) | DoSaveSection(_, _) | DoReviewSection(_, _, _, _) => Profile
    case DoStartReview | DoSubmit => Progress
    case DoAsk | DoRespond(_, _) | DoReviewResponse(_, _) | DoWithdraw(_) => Inquiries
    case DoUpload(_) | DoUploadEvidence(_, _, _, _) | DoReviewDocument(_, _) => Evidences
    case DoRaiseCondition(_) | DoDecide(_, _) | DoClearCondition(_) => Decisions
    case DoRestrict(_) | DoResolve(_) | DoMonitor => Restraints
  }

  ghost predicate OnlyPart(part: Part, c: Company, c': Company) {
    match part
    case Operations =>
      c' == c.(orders := c'.orders, movements := c'.movements, vehicles := c'.vehicles, drivers := c'.drivers)
    case Profile => c' == c.(sections := c'.sections, services := c'.services, contact := c'.contact)
    case Progress => c' == c.(status := c'.status)
    case Inquiries => c' == c.(inquiries := c'.inquiries, status := c'.status)
    case Evidences => c' == c.(documents := c'.documents, sections := c'.sections, status := c'.status)
    case Decisions => c' == c.(conditions := c'.conditions, restrictions := c'.restrictions, status := c'.status)
    case Restraints => c' == c.(restrictions := c'.restrictions, events := c'.events)
  }

  lemma OperationsFrame(c: Company, s: Step)
    requires PartOf(s.action) == Operations
    ensures OnlyPart(Operations, c, After(c, s))
  {
  }

  lemma ProfileFrame(c: Company, s: Step)
    requires PartOf(s.action) == Profile || PartOf(s.action) == Progress
    ensures OnlyPart(PartOf(s.action), c, After(c, s))
  {
  }

  lemma InquiriesFrame(c: Company, s: Step)
    requires PartOf(s.action) == Inquiries
    ensures OnlyPart(Inquiries, c, After(c, s))
  {
  }

  lemma EvidenceFrame(c: Company, s: Step)
    requires PartOf(s.action) == Evidences || PartOf(s.action) == Restraints
    ensures OnlyPart(PartOf(s.action), c, After(c, s))
  {
  }

  /** Adding conditions writes them and the restrictions they bring, and loses none. */
  lemma {:induction false} AddConditionsFrame(c: Company, scopes: seq<string>)
    ensures AddConditions(c, scopes).Ok? ==>
      var c' := AddConditions(c, scopes).value;
      c' == c.(conditions := c'.conditions, restrictions := c'.restrictions)
      && c.restrictions <= c'.restrictions && c.conditions <= c'.conditions
  {
    if scopes != [] {
      AddConditionsFrame(c, scopes[..|scopes| - 1]);
    }
  }

  lemma DecisionsFrame(c: Company, s: Step)
    requires PartOf(s.action) == Decisions
    ensures OnlyPart(Decisions, c, After(c, s))
  {
    if s.action.DoDecide? {
      AddConditionsFrame(c, s.action.scopes);
    }
  }

  /** A request changes nothing outside the part of the file it works on. */
  lemma RequestFrame(c: Company, s: Step)
    ensures OnlyPart(PartOf(s.action), c, After(c, s))
  {
    match PartOf(s.action)
    case Operations => OperationsFrame(c, s);
    case Inquiries => InquiriesFrame(c, s);
    case Decisions => DecisionsFrame(c, s);
    case Evidences | Restraints => EvidenceFrame(c, s);
    case _ => ProfileFrame(c, s);
  }

  // ---------------------------------------------------------------- restrictions

  /** One history of restrictions continues another: none is lost or rewritten, and none is reopened. */
  ghost predicate Continued(before: seq<Restriction>, after: seq<Restriction>) {
    && |before| <= |after|
    && forall i | 0 <= i < |before| ::
      after[i] == before[i] || (!before[i].resolved && after[i] == before[i].(resolved := true))
  }

  lemma DecisionsContinue(c: Company, s: Step)
    requires PartOf(s.action) == Decisions
    ensures Continued(c.restrictions, After(c, s).restrictions)
  {
    if s.action.DoDecide? {
      AddConditionsFrame(c, s.action.scopes);
    }
  }

  lemma RestrictionsContinue(c: Company, s: Step)
    ensures Continued(c.restrictions, After(c, s).restrictions)
  {
    RequestFrame(c, s);
    match PartOf(s.action)
    case Decisions => DecisionsContinue(c, s);
    case Restraints => GuardedExact(c.documents, c.restrictions, s.now.today, 0);
    case _ =>
  }

  /** Over a whole run restrictions are only added and resolved. */
  lemma {:induction false} RestrictionsOnlyGrow(c: Company, steps: seq<Step>, n: nat)
    requires n <= |steps|
    ensures Continued(Run(c, steps[..n]).restrictions, Run(c, steps).restrictions)
  {
    if n == |steps| {
      assert steps[..n] == steps;
    } else {
      var init := steps[..|steps| - 1];
      assert init[..n] == steps[..n];
      RestrictionsOnlyGrow(c, init, n);
      RestrictionsContinue(Run(c, init), steps[|steps| - 1]);
    }
  }

  // ---------------------------------------------------------------- documents

  /** A document keeps its content; it is superseded at most once, and gets at most one verdict. */
  ghost predicate DocumentKept(before: Document, after: Document) {
    && after == before.(current := after.current, status := after.status)
    && (after.current ==> before.current)
    && (before.status != Unreviewed ==> after.status == before.status)
  }

  ghost predicate DocumentsContinued(before: seq<Document>, after: seq<Document>) {
    |before| <= |after| && forall i | 0 <= i < |before| :: DocumentKept(before[i], after[i])
  }

  lemma AddVersionContinued(documents: seq<Document>, u: Upload)
    ensures DocumentsContinued(documents, AddVersion(documents, u))
  {
  }

  lemma UploadsContinue(c: Company, s: Step)
    requires s.action.DoUpload? || s.action.DoUploadEvidence?
    ensures DocumentsContinued(c.documents, After(c, s).documents)
  {
    match s.action
    case DoUpload(u) => AddVersionContinued(c.documents, u);
    case DoUploadEvidence(k, kind, domain, expires) =>
      if k < |c.conditions| {
        AddVersionContinued(c.documents, Upload(kind, domain, c.conditions[k].scope, None, None, Some(k), expires));
      }
  }

  lemma VerdictContinues(c: Company, s: Step)
    requires s.action.DoReviewDocument?
    ensures DocumentsContinued(c.documents, After(c, s).documents)
  {
  }

  lemma DocumentsContinue(c: Company, s: Step)
    ensures DocumentsContinued(c.documents, After(c, s).documents)
  {
    if s.action.DoReviewDocument? {
      VerdictContinues(c, s);
    } else if PartOf(s.action) == Evidences {
      UploadsContinue(c, s);
    } else {
      RequestFrame(c, s);
    }
  }

  /** Over a whole run no document is lost, rewritten or brought back, and no verdict is revised. */
  lemma {:induction false} VerdictsAreFinal(c: Company, steps: seq<Step>, n: nat)
    requires n <= |steps|
    ensures DocumentsContinued(Run(c, steps[..n]).documents, Run(c, steps).documents)
  {
    if n == |steps| {
      assert steps[..n] == steps;
    } else {
      var init := steps[..|steps| - 1];
      assert init[..n] == steps[..n];
      VerdictsAreFinal(c, init, n);
      DocumentsContinue(Run(c, init), steps[|steps| - 1]);
    }
  }

  // ---------------------------------------------------------------- movements

  /** How far a movement has come; a movement in transit can be delayed and travel on. */
  function Stage(s: MovementStatus): nat {
    match s
    case Scheduled => 0
    case Assigned => 1
    case Loading => 2
    case InTransit | Delayed => 3
    case Arrived => 4
    case Delivered => 5
    case Cancelled => 6
  }

  ghost predicate Advanced(before: Movement, after: Movement) {
    && after.order == before.order && after.service == before.service
    && Stage(before.status) <= Stage(after.status)
    && (before.status == Delivered || before.status == Cancelled ==> after.status == before.status)
    && (before.status == Arrived ==> after.status == Arrived || after.status == Delivered)
  }

  ghost predicate MovementsContinued(before: seq<Movement>, after: seq<Movement>) {
    |before| <= |after| && forall m | 0 <= m < |before| :: Advanced(before[m], after[m])
  }

  lemma MovementsContinue(c: Company, s: Step)
    ensures MovementsContinued(c.movements, After(c, s).movements)
  {
    if !s.action.DoAcceptOrder? && !s.action.DoAssign? && !s.action.DoSetStatus? {
      MovementsUntouched(c, s);
    }
  }

  lemma MovementsUntouched(c: Company, s: Step)
    requires !s.action.DoAcceptOrder? && !s.action.DoAssign? && !s.action.DoSetStatus?
    ensures After(c, s).movements == c.movements
  {
    RequestFrame(c, s);
  }

  /**
   * Over a whole run a movement never goes back a stage, an arrived one can only be delivered, and the end
   * states are final.
   */
  lemma {:induction false} MovementsOnlyAdvance(c: Company, steps: seq<Step>, n: nat)
    requires n <= |steps|
    ensures MovementsContinued(Run(c, steps[..n]).movements, Run(c, steps).movements)
  {
    if n == |steps| {
      assert steps[..n] == steps;
    } else {
      var init := steps[..|steps| - 1];
      assert init[..n] == steps[..n];
      MovementsOnlyAdvance(c, init, n);
      MovementsContinue(Run(c, init), steps[|steps| - 1]);
    }
  }

  // ---------------------------------------------------------------- nothing is settled without evidence

  /** A document is verified only by a review, while current and in date. */
  lemma VerifiedByReview(c: Company, s: Step, i: nat)
    requires i < |c.documents| && i < |After(c, s).documents|
      && c.documents[i].status != After(c, s).documents[i].status
    ensures s.action.DoReviewDocument? && s.action.document == i && c.documents[i].current
    ensures After(c, s).documents[i].status == (if s.action.verified then Verified else Refuted)
    ensures s.action.verified ==> !Lapsed(c.documents[i].expires, s.now.today)
  {
    RequestFrame(c, s);
  }

  /**
   * A request for information is closed only by withdrawal, or on a last response that is current, verified
   * and in date throughout.
   */
  lemma ClosedOnEvidence(c: Company, s: Step, q: nat)
    requires q < |c.inquiries| && q < |After(c, s).inquiries|
    requires c.inquiries[q].status != Closed && After(c, s).inquiries[q].status == Closed
    ensures s.action == DoWithdraw(q)
      || (s.action == DoReviewResponse(q, true) && c.inquiries[q].responses != []
          && Convincing(c.documents, c.inquiries[q].responses[|c.inquiries[q].responses| - 1], s.now.today))
  {
    RequestFrame(c, s);
  }

  /** A condition is cleared only while some current document answers it, and all that do are verified and in date. */
  lemma ClearedOnEvidence(c: Company, s: Step, k: nat)
    requires k < |c.conditions| && k < |After(c, s).conditions|
    requires !c.conditions[k].cleared && After(c, s).conditions[k].cleared
    ensures s.action == DoClearCondition(k)
    ensures exists d | d in c.documents :: d.current && d.condition == Some(k)
    ensures forall d | d in c.documents && d.current && d.condition == Some(k) ::
      d.status == Verified && !Lapsed(d.expires, s.now.today)
  {
    RequestFrame(c, s);
    if s.action.DoDecide? {
      AddConditionsFrame(c, s.action.scopes);
    }
  }

  /**
   * A restriction is resolved only after its condition is cleared, or its document replaced by a verified one
   * in date.
   */
  lemma ResolvedOnEvidence(c: Company, s: Step, r: nat)
    requires r < |c.restrictions| && r < |After(c, s).restrictions|
    requires !c.restrictions[r].resolved && After(c, s).restrictions[r].resolved
    ensures s.action == DoResolve(r)
    ensures c.restrictions[r].condition.Some? && c.restrictions[r].condition.value < |c.conditions|
      ==> c.conditions[c.restrictions[r].condition.value].cleared
    ensures c.restrictions[r].document.Some? && c.restrictions[r].document.value < |c.documents|
      ==> Replaced(c.documents, c.restrictions[r].document.value, s.now.today)
  {
    RequestFrame(c, s);
    if PartOf(s.action) == Decisions {
      if s.action.DoDecide? {
        AddConditionsFrame(c, s.action.scopes);
      }
    } else if PartOf(s.action) == Restraints {
      GuardedExact(c.documents, c.restrictions, s.now.today, 0);
    }
  }
}
