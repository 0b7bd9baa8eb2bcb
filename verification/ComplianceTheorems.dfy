/** What every run of an onboarding application keeps. */
module ComplianceTheorems {
  import opened Common
  import opened Rounding
  import opened ComplianceModel

  // ---------------------------------------------------------------- the invariants

  ghost predicate AllUnconvincing(evidence: seq<EvidenceStatus>) {
    forall e | e in evidence :: e == Unconvincing
  }

  /** All but the last piece of evidence failed, and the last one has the given verdict. */
  ghost predicate LastIs(evidence: seq<EvidenceStatus>, verdict: EvidenceStatus) {
    evidence != [] && evidence[|evidence| - 1] == verdict && AllUnconvincing(evidence[..|evidence| - 1])
  }

  /** The status of a condition is a reading of its evidence. */
  ghost predicate ConditionKept(k: Condition) {
    && (k.status == Pending <==> k.evidence == [])
    && (k.status == Answered <==> LastIs(k.evidence, Waiting))
    && (k.status == Unanswered <==> k.evidence != [] && AllUnconvincing(k.evidence))
    && (k.status == Cleared <==> LastIs(k.evidence, Convincing))
  }

  ghost predicate ConditionsKept(conditions: seq<Condition>) {
    forall k | k in conditions :: ConditionKept(k)
  }

  /** Only a requested document can be without a file. */
  ghost predicate FilesKept(documents: map<string, Document>) {
    forall t | t in documents :: documents[t].status != Requested ==> documents[t].file
  }

  ghost predicate RefutedShows(a: Application) {
    SomeRefuted(a.documents) ==> a.status == ActionRequired || a.status == Rejected
  }

  /** Past draft the organisation's record is a function of the application's. */
  ghost predicate OrganisationFollows(a: Application) {
    a.status != Draft ==>
      && a.organisation.verification == VerificationOf(a.status)
      && (a.organisation.verifiedAt.Some? <==> a.status == Verified)
      && a.organisation.reason == (if a.status == Rejected then a.notes else "")
      && a.organisation.submittedAt == a.submittedAt && a.submittedAt.Some?
  }

  /** The onboarding form is filled, people and required documents are there. */
  ghost predicate FormComplete(a: Application) {
    if a.sector == Quality then
      {QualityOrganisation, QualityServices, QualityAccreditation, QualityTesting, QualitySampling,
        QualitySignature} <= a.answered
    else
      && {OrganisationProfile, Representative, Services, ProfessionalCapability, InspectionCapability,
           ConflictDeclaration, Declaration} <= a.answered
      && a.personnel > 0
  }

  /** Documents of a verified file: accepted, or a later supplement to the logistics checklist. */
  ghost predicate Locked(a: Application) {
    forall t | t in a.documents ::
      a.documents[t].status == Accepted
        || (a.sector == Logistics && t in a.checklist.titles && a.documents[t].status == Filed)
  }

  ghost predicate RequiredAccepted(a: Application) {
    forall t | t in a.checklist.required :: t in a.documents && a.documents[t].status == Accepted
  }

  ghost predicate EachAccepted(a: Application) {
    forall t | t in a.documents :: a.documents[t].status == Accepted
  }

  ghost predicate EachCleared(a: Application) {
    forall k | k in a.conditions :: k.status == Cleared
  }

  ghost predicate VerifiedKept(a: Application) {
    a.status == Verified ==> EachCleared(a) && Locked(a) && RequiredAccepted(a) && FormComplete(a)
  }

  ghost predicate ConditionalKept(a: Application) {
    a.status == ConditionallyApproved ==> a.conditions != []
  }

  ghost predicate Kept(a: Application) {
    && ConditionsKept(a.conditions) && FilesKept(a.documents) && RefutedShows(a) && OrganisationFollows(a)
    && VerifiedKept(a) && ConditionalKept(a)
  }

  // ---------------------------------------------------------------- the gates

  /** What the checklist requires is there, and every document has a file that is filed or accepted. */
  ghost predicate DocumentsSupplied(a: Application) {
    && (forall t | t in a.checklist.required :: t in a.documents)
    && (forall t | t in a.documents ::
          a.documents[t].file && (a.documents[t].status == Filed || a.documents[t].status == Accepted))
  }

  ghost predicate Complete(a: Application, account: bool) {
    account && FormComplete(a) && DocumentsSupplied(a)
  }

  /** One hundred percent means everything, for the list of seven and for the list of eight. */
  lemma ProgressExact(a: Application, account: bool)
    ensures Percent(Checks(a, account)) == 100 <==> Complete(a, account)
  {
    var checks := Checks(a, account);
    GateIsExact(checks);
    if a.sector == Quality {
      assert (forall i | 0 <= i < |checks| :: checks[i])
        <==> checks[0] && checks[1] && checks[2] && checks[3] && checks[4] && checks[5] && checks[6] && checks[7];
    } else {
      assert (forall i | 0 <= i < |checks| :: checks[i])
        <==> checks[0] && checks[1] && checks[2] && checks[3] && checks[4] && checks[5] && checks[6];
    }
  }

  lemma {:induction false} GrowShape(conditions: seq<Condition>, more: nat)
    ensures |Grow(conditions, more)| == |conditions| + more && conditions <= Grow(conditions, more)
    ensures forall i | |conditions| <= i < |conditions| + more :: Grow(conditions, more)[i] == Condition(Pending, [])
  {
    if more > 0 {
      GrowShape(conditions, more - 1);
    }
  }

  /**
   * A file is verified exactly from an open review, when it is complete, every document is accepted and every
   * condition cleared; requirements in the old free form must have been turned into conditions first.
   */
  lemma VerifyExactly(a: Application, now: Now, notes: string, requirements: Option<string>, more: nat)
    ensures Decide(a, now, Verified, notes, requirements, more).Ok? <==>
      && InReviewState(a.status) && more == 0 && Complete(a, now.account) && EachAccepted(a)
      && EachCleared(a) && (a.requirements == "" || a.conditions != [])
  {
    ProgressExact(a, now.account);
  }

  /**
   * Conditional approval asks for the same completeness, and for a condition that is not cleared; it is not
   * granted twice.
   */
  lemma ApproveConditionallyExactly(a: Application, now: Now, notes: string, requirements: Option<string>, more: nat)
    ensures Decide(a, now, ConditionallyApproved, notes, requirements, more).Ok? <==>
      && (a.status == UnderReview || a.status == ActionRequired) && Complete(a, now.account) && EachAccepted(a)
      && (more > 0 || exists k | k in a.conditions :: k.status != Cleared)
  {
    ProgressExact(a, now.account);
  }

  // ---------------------------------------------------------------- each request keeps them

  lemma UploadKeeps(a: Application, t: string, file: bool)
    requires Kept(a) && UploadDocument(a, t, file).Ok?
    ensures Kept(UploadDocument(a, t, file).value)
  {
    var a' := UploadDocument(a, t, file).value;
    if SomeRefuted(a'.documents) {
      var x :| x in a'.documents && a'.documents[x].status == Refuted;
      assert a.documents[x].status == Refuted;
    }
  }

  lemma DecideKeeps(a: Application, now: Now, target: Status, notes: string, requirements: Option<string>, more: nat)
    requires Kept(a) && Decide(a, now, target, notes, requirements, more).Ok?
    ensures Kept(Decide(a, now, target, notes, requirements, more).value)
  {
    var a' := Decide(a, now, target, notes, requirements, more).value;
    GrowShape(a.conditions, more);
    ProgressExact(a, now.account);
    forall k | k in a'.conditions
      ensures ConditionKept(k)
    {
      var i :| 0 <= i < |a'.conditions| && a'.conditions[i] == k;
      assert i < |a.conditions| ==> a.conditions[i] in a.conditions && a'.conditions[i] == a.conditions[i];
    }
    assert more == 0 ==> a'.conditions == a.conditions;
  }

  lemma RequestKeeps(a: Application, now: Now, t: string)
    requires Kept(a) && RequestDocument(a, now, t).Ok?
    ensures Kept(RequestDocument(a, now, t).value)
  {
  }

  lemma ReviewDocumentKeeps(a: Application, now: Now, t: string, accepted: bool)
    requires Kept(a) && ReviewDocument(a, now, t, accepted).Ok?
    ensures Kept(ReviewDocument(a, now, t, accepted).value)
  {
    var a' := ReviewDocument(a, now, t, accepted).value;
    if accepted && SomeRefuted(a'.documents) {
      var x :| x in a'.documents && a'.documents[x].status == Refuted;
      assert a.documents[x].status == Refuted;
    }
  }

  lemma OneCondition(conditions: seq<Condition>, k: nat, c: Condition)
    requires ConditionsKept(conditions) && k < |conditions| && ConditionKept(c)
    ensures ConditionsKept(conditions[k := c])
  {
    forall x | x in conditions[k := c]
      ensures ConditionKept(x)
    {
      assert x == c || x in conditions;
    }
  }

  /** New evidence for a condition without a convincing or a waiting piece. */
  lemma EvidenceAdded(evidence: seq<EvidenceStatus>)
    requires AllUnconvincing(evidence)
    ensures ConditionKept(Condition(Answered, evidence + [Waiting]))
  {
    var more := evidence + [Waiting];
    assert more[..|evidence|] == evidence && more[|evidence|] == Waiting && Waiting in more;
  }

  lemma OnlyLastWaits(evidence: seq<EvidenceStatus>, e: nat)
    requires LastIs(evidence, Waiting) && e < |evidence| && evidence[e] == Waiting
    ensures e == |evidence| - 1
  {
    var n := |evidence| - 1;
    UnconvincingByIndex(evidence[..n]);
    assert forall i | 0 <= i < n :: evidence[..n][i] == evidence[i];
  }

  /** The verdict on the piece that waits. */
  lemma EvidenceJudged(evidence: seq<EvidenceStatus>, convincing: bool)
    requires LastIs(evidence, Waiting)
    ensures var judged := evidence[|evidence| - 1 := if convincing then Convincing else Unconvincing];
      ConditionKept(Condition(if convincing then Cleared else Unanswered, judged))
  {
    var n := |evidence| - 1;
    var judged := evidence[n := if convincing then Convincing else Unconvincing];
    assert judged[..n] == evidence[..n] && judged == judged[..n] + [judged[n]] && judged[n] in judged;
  }

  lemma AnswerConditionKeeps(a: Application, k: nat)
    requires Kept(a) && AnswerCondition(a, k).Ok?
    ensures Kept(AnswerCondition(a, k).value)
  {
    var before := a.conditions[k];
    assert before in a.conditions && ConditionKept(before);
    EvidenceAdded(before.evidence);
    OneCondition(a.conditions, k, Condition(Answered, before.evidence + [Waiting]));
  }

  lemma ReviewAnswerKeeps(a: Application, k: nat, e: nat, convincing: bool)
    requires Kept(a) && ReviewAnswer(a, k, e, convincing).Ok?
    ensures Kept(ReviewAnswer(a, k, e, convincing).value)
  {
    var before := a.conditions[k];
    assert before in a.conditions && ConditionKept(before);
    OnlyLastWaits(before.evidence, e);
    EvidenceJudged(before.evidence, convincing);
    OneCondition(a.conditions, k, ReviewAnswer(a, k, e, convincing).value.conditions[k]);
  }

  lemma AddConditionKeeps(a: Application)
    requires Kept(a) && AddCondition(a).Ok?
    ensures Kept(AddCondition(a).value)
  {
  }

  lemma PersonnelKeeps(a: Application, s: Step)
    requires Kept(a) && Answer(a, s).Ok?
      && (s.action.DoSaveField? || s.action.DoAddPerson? || s.action.DoRemovePerson? || s.action.DoSubmit?)
    ensures Kept(Answer(a, s).value)
  {
  }

  lemma AnswerKeeps(a: Application, s: Step)
    requires Kept(a) && Answer(a, s).Ok?
    ensures Kept(Answer(a, s).value)
  {
    match s.action
    case DoUpload(t, file) => UploadKeeps(a, t, file);
    case DoDecide(target, notes, requirements, more) => DecideKeeps(a, s.now, target, notes, requirements, more);
    case DoRequest(t) => RequestKeeps(a, s.now, t);
    case DoReviewDocument(t, accepted) => ReviewDocumentKeeps(a, s.now, t, accepted);
    case DoAddCondition => AddConditionKeeps(a);
    case DoAnswerCondition(k) => AnswerConditionKeeps(a, k);
    case DoReviewAnswer(k, e, convincing) => ReviewAnswerKeeps(a, k, e, convincing);
    case _ => PersonnelKeeps(a, s);
  }

  lemma {:induction false} RunKeeps(start: Application, steps: seq<Step>)
    requires Kept(start)
    ensures Kept(Run(start, steps))
  {
    if steps != [] {
      var init, last := steps[..|steps| - 1], steps[|steps| - 1];
      RunKeeps(start, init);
      if Answer(Run(start, init), last).Ok? {
        AnswerKeeps(Run(start, init), last);
      }
    }
  }

  ghost predicate Reachable(a: Application) {
    exists start, steps :: JustCreated(start) && a == Run(start, steps)
  }

  lemma ReachableKept(a: Application)
    requires Reachable(a)
    ensures Kept(a)
  {
    var start, steps :| JustCreated(start) && a == Run(start, steps);
    RunKeeps(start, steps);
  }

  // ---------------------------------------------------------------- the theorems

  /** A rejected document always shows as action required or rejected. */
  lemma RejectionShows(a: Application, t: string)
    requires Reachable(a) && t in a.documents && a.documents[t].status == Refuted
    ensures a.status == ActionRequired || a.status == Rejected
  {
    ReachableKept(a);
  }

  /** Past draft the organisation's verification is the application's, with the date and the reason that go with it. */
  lemma OrganisationMirrors(a: Application)
    requires Reachable(a) && a.status != Draft
    ensures a.organisation.verification == VerifiedOrganisation <==> a.status == Verified
    ensures a.organisation.verification == RejectedOrganisation <==> a.status == Rejected
    ensures a.organisation.verification == InReview <==> InReviewState(a.status)
    ensures a.organisation.verifiedAt.Some? <==> a.status == Verified
    ensures a.organisation.reason == (if a.status == Rejected then a.notes else "")
    ensures a.organisation.submittedAt == a.submittedAt && a.submittedAt.Some?
  {
    ReachableKept(a);
  }

  /**
   * A verified file has cleared conditions, a complete form and accepted documents, later logistics
   * supplements apart.
   */
  lemma VerifiedIsComplete(a: Application)
    requires Reachable(a) && a.status == Verified
    ensures forall k | k in a.conditions :: k.status == Cleared
    ensures forall t | t in a.documents ::
      a.documents[t].status == Accepted
        || (a.sector == Logistics && t in a.checklist.titles && a.documents[t].status == Filed)
    ensures forall t | t in a.checklist.required ::
      t in a.documents && a.documents[t].status == Accepted && a.documents[t].file
    ensures FormComplete(a)
  {
    ReachableKept(a);
  }

  /** What a verified file can still gain. */
  ghost predicate Supplemented(before: Application, after: Application) {
    && after == before.(documents := after.documents)
    && (forall t | t in before.documents && before.documents[t].status == Accepted ::
          t in after.documents && after.documents[t] == before.documents[t])
    && (forall t | t in after.documents && !(t in before.documents && after.documents[t] == before.documents[t]) ::
          after.sector == Logistics && t in after.checklist.titles && after.documents[t] == Document(Filed, true))
  }

  lemma VerifiedStep(a: Application, s: Step)
    requires a.status == Verified
    ensures Supplemented(a, After(a, s))
  {
  }

  /**
   * Verification is final: whatever is requested afterwards, the file stays verified and everything in it stays
   * as it was, but for documents supplied late to the logistics checklist; its accepted documents are never touched.
   */
  lemma {:induction false} VerifiedIsFinal(a: Application, steps: seq<Step>)
    requires a.status == Verified
    ensures Supplemented(a, Run(a, steps))
    ensures a.sector != Logistics ==> Run(a, steps) == a
  {
    if steps != [] {
      VerifiedIsFinal(a, steps[..|steps| - 1]);
      VerifiedStep(Run(a, steps[..|steps| - 1]), steps[|steps| - 1]);
    }
  }

  /** The status of a condition says exactly what became of its evidence. */
  lemma ConditionProtocol(a: Application, k: nat)
    requires Reachable(a) && k < |a.conditions|
    ensures var c, n := a.conditions[k], |a.conditions[k].evidence|;
      && (c.status == Pending <==> n == 0)
      && (c.status == Answered <==> n > 0 && c.evidence[n - 1] == Waiting && forall i | 0 <= i < n - 1 ::
           c.evidence[i] == Unconvincing)
      && (c.status == Unanswered <==> n > 0 && forall i | 0 <= i < n :: c.evidence[i] == Unconvincing)
      && (c.status == Cleared <==> n > 0 && c.evidence[n - 1] == Convincing && forall i | 0 <= i < n - 1 ::
           c.evidence[i] == Unconvincing)
  {
    ReachableKept(a);
    var c := a.conditions[k];
    assert c in a.conditions && ConditionKept(c);
    UnconvincingByIndex(c.evidence);
    if c.evidence != [] {
      var init := c.evidence[..|c.evidence| - 1];
      UnconvincingByIndex(init);
      assert forall i | 0 <= i < |init| :: init[i] == c.evidence[i];
    }
  }

  lemma UnconvincingByIndex(evidence: seq<EvidenceStatus>)
    ensures AllUnconvincing(evidence) <==> forall i | 0 <= i < |evidence| :: evidence[i] == Unconvincing
  {
    forall i | 0 <= i < |evidence|
      ensures evidence[i] in evidence
    {
    }
  }

  /** Conditions are never withdrawn, and a cleared one is never reopened. */
  ghost predicate ConditionsContinued(before: seq<Condition>, after: seq<Condition>) {
    |before| <= |after| && forall k | 0 <= k < |before| ::
      |before[k].evidence| <= |after[k].evidence| && (before[k].status == Cleared ==> after[k] == before[k])
  }

  lemma ConditionsStep(a: Application, s: Step)
    ensures ConditionsContinued(a.conditions, After(a, s).conditions)
  {
    if s.action.DoDecide? {
      GrowShape(a.conditions, s.action.more);
    }
  }

  lemma {:induction false} ClearedStaysCleared(a: Application, steps: seq<Step>)
    ensures ConditionsContinued(a.conditions, Run(a, steps).conditions)
  {
    if steps != [] {
      ClearedStaysCleared(a, steps[..|steps| - 1]);
      ConditionsStep(Run(a, steps[..|steps| - 1]), steps[|steps| - 1]);
    }
  }

  /** The status moves only along the transition table, and the organisation's record only with it. */
  lemma MovesAlongTable(a: Application, s: Step)
    ensures After(a, s).status == a.status || After(a, s).status in Targets(a.status)
    ensures After(a, s).status == a.status ==> After(a, s).organisation == a.organisation
    ensures After(a, s).status != a.status
      ==> s.action.DoSubmit? || s.action.DoDecide? || s.action.DoRequest? || s.action.DoReviewDocument?
    ensures After(a, s).status == UnderReview && a.status != UnderReview ==> s.action.DoSubmit?
    ensures After(a, s).status in {Verified, Rejected, ConditionallyApproved} && After(a, s).status != a.status
      ==> s.action.DoDecide? && s.action.target == After(a, s).status
  {
  }

  /** No entry of the table is dead: a complete file can take each of them. */
  lemma TableIsLive(a: Application, target: Status, now: Now)
    requires target in Targets(a.status) && now.account && Complete(a, true) && EachAccepted(a)
    requires target == Verified ==> EachCleared(a) && (a.requirements == "" || a.conditions != [])
    ensures exists s :: After(a, s).status == target
  {
    ProgressExact(a, true);
    var s := if target == UnderReview then Step(now, DoSubmit)
             else Step(now, DoDecide(target, "", None, if target == ConditionallyApproved then 1 else 0));
    assert After(a, s).status == target;
  }

  /** On a complete and cleared file some request leads to another status exactly when the table lists it. */
  lemma TableIsExact(a: Application, target: Status, now: Now)
    requires now.account && Complete(a, true) && EachAccepted(a) && target != a.status
    requires EachCleared(a) && (a.requirements == "" || a.conditions != [])
    ensures (exists s :: After(a, s).status == target) <==> target in Targets(a.status)
  {
    if s :| After(a, s).status == target {
      MovesAlongTable(a, s);
    }
    if target in Targets(a.status) {
      TableIsLive(a, target, now);
    }
  }

  /** Request `i` verified a file that met every gate, and only late supplements have been added since. */
  ghost predicate VerifiedAt(start: Application, steps: seq<Step>, i: nat) {
    && i < |steps| && steps[i].action.DoDecide? && steps[i].action.target == Verified
    && var a := Run(start, steps[..i]);
    && InReviewState(a.status) && Complete(a, steps[i].now.account) && EachAccepted(a)
         && EachCleared(a)
    && Supplemented(After(a, steps[i]), Run(start, steps))
  }

  lemma DecisionVerifies(a: Application, s: Step)
    requires a.status != Verified && After(a, s).status == Verified
    ensures s.action.DoDecide? && s.action.target == Verified
    ensures InReviewState(a.status) && Complete(a, s.now.account) && EachAccepted(a)
      && EachCleared(a)
  {
    MovesAlongTable(a, s);
    VerifyExactly(a, s.now, s.action.notes, s.action.requirements, s.action.more);
  }

  lemma SupplementedTwice(a: Application, b: Application, c: Application)
    requires Supplemented(a, b) && Supplemented(b, c)
    ensures Supplemented(a, c)
  {
  }

  /** Behind every verified file stands one decision on a file that met every gate. */
  lemma {:induction false} VerificationHasDecision(start: Application, steps: seq<Step>)
    requires start.status == Draft && Run(start, steps).status == Verified
    ensures exists i: nat :: VerifiedAt(start, steps, i)
  {
    var init, last := steps[..|steps| - 1], steps[|steps| - 1];
    var a := Run(start, init);
    if a.status == Verified {
      VerificationHasDecision(start, init);
      var i: nat :| VerifiedAt(start, init, i);
      assert init[..i] == steps[..i];
      VerifiedStep(a, last);
      SupplementedTwice(After(Run(start, steps[..i]), steps[i]), a, Run(start, steps));
      assert VerifiedAt(start, steps, i);
    } else {
      DecisionVerifies(a, last);
      assert VerifiedAt(start, steps, |init|);
    }
  }
}
