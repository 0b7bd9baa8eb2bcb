/** The sign-off of the mineral domain: exactly when it stops resting on data and evidence. */
module LogisticsMineral {
  import opened Common
  import opened LogisticsModel
  import opened LogisticsVersions
  import opened LogisticsInvariant
  import opened LogisticsHistory
  import opened LogisticsTheorems

  /** While the mineral domain counts in the review, a pass rests on data and on settled evidence. */
  ghost predicate MineralRests(c: Company) {
    && Mineral in c.sections
    && (c.sections[Mineral].applicable ==> SignedOff(c.sections[Mineral], Mineral, c.documents))
  }

  /** The applicant declares a mineral service after the desk has passed the domain as not applicable. */
  ghost predicate BreaksMineral(c: Company, s: Step) {
    && s.action.DoEditCompany? && Editable(c.status) && IsMineral(s.action.services)
    && Mineral in c.sections && !c.sections[Mineral].applicable
    && !SignedOff(c.sections[Mineral], Mineral, c.documents)
  }

  // ---------------------------------------------------------------- one request

  lemma UploadedRests(c: Company, u: Upload, sections: map<Domain, Section>)
    requires MineralRests(c) && Continues(c.documents, u)
    requires sections == SetVerdict(c.sections, u.domain, Pending)
      || (sections == c.sections && CurrentOf(c.documents, u.kind) == None && u.kind.Listed?)
    ensures Mineral in sections && sections[Mineral].applicable ==>
      SignedOff(sections[Mineral], Mineral, AddVersion(c.documents, u))
  {
    AddVersionSettled(c.documents, u, Mineral);
  }

  lemma UploadRests(c: Company, u: Upload)
    requires MineralRests(c) && UploadDocument(c, u).Ok?
    ensures MineralRests(UploadDocument(c, u).value)
  {
    UploadShape(c, u);
    UploadedRests(c, u, UploadDocument(c, u).value.sections);
  }

  lemma EvidenceRests(c: Company, k: nat, kind: Kind, domain: Domain, expires: Option<int>)
    requires MineralRests(c) && UploadEvidence(c, k, kind, domain, expires).Ok?
    ensures MineralRests(UploadEvidence(c, k, kind, domain, expires).value)
  {
    UploadedRests(c, Upload(kind, domain, c.conditions[k].scope, None, None, Some(k), expires),
                  SetVerdict(c.sections, domain, Pending));
  }

  lemma DocumentVerdictRests(c: Company, now: Now, i: nat, verified: bool)
    requires MineralRests(c) && ReviewDocument(c, now, i, verified).Ok?
    ensures MineralRests(ReviewDocument(c, now, i, verified).value)
  {
    if verified || c.documents[i].domain != Mineral {
      VerdictSettled(c.documents, i, if verified then Verified else Refuted, Mineral);
    }
  }

  lemma SectionVerdictRests(c: Company, now: Now, d: Domain, verdict: Verdict, score: nat, applicable: bool)
    requires MineralRests(c) && ReviewSection(c, now, d, verdict, score, applicable).Ok?
    ensures MineralRests(ReviewSection(c, now, d, verdict, score, applicable).value)
  {
  }

  lemma EvidencesRest(c: Company, s: Step)
    requires MineralRests(c) && PartOf(s.action) == Evidences && Answer(c, s.now, s.action).Ok?
    ensures MineralRests(After(c, s))
  {
    match s.action
    case DoUpload(u) => UploadRests(c, u);
    case DoUploadEvidence(k, kind, domain, expires) => EvidenceRests(c, k, kind, domain, expires);
    case DoReviewDocument(i, verified) => DocumentVerdictRests(c, s.now, i, verified);
  }

  lemma ProfileRests(c: Company, s: Step)
    requires MineralRests(c) && PartOf(s.action) == Profile && Answer(c, s.now, s.action).Ok?
    ensures MineralRests(After(c, s)) <==> !BreaksMineral(c, s)
  {
    if s.action.DoReviewSection? {
      SectionVerdictRests(c, s.now, s.action.domain, s.action.verdict, s.action.score, s.action.applicable);
    }
  }

  /** The sign-off of the mineral domain survives every request but the one edit that breaks it. */
  lemma MineralRestsExactly(c: Company, s: Step)
    requires MineralRests(c)
    ensures MineralRests(After(c, s)) <==> !BreaksMineral(c, s)
  {
    if Answer(c, s.now, s.action).Ok? {
      match PartOf(s.action)
      case Evidences => EvidencesRest(c, s);
      case Profile => ProfileRests(c, s);
      case _ => RequestFrame(c, s);
    }
  }

  // ---------------------------------------------------------------- how it is mended

  /** Every current mineral document but number `i` is settled. */
  ghost predicate OthersSettled(documents: seq<Document>, i: nat) {
    forall j | 0 <= j < |documents| && j != i && documents[j].current && documents[j].domain == Mineral ::
      Settled(documents[j])
  }

  /**
   * The requests that mend a sign-off: an edit to other services, a new state or verdict of the section, new
   * evidence that reopens it, the refusal of a mineral document, or the verification of the last unsettled one
   * of a section with data.
   */
  ghost predicate MendsMineral(c: Company, s: Step) {
    && Answer(c, s.now, s.action).Ok?
    && match s.action
       case DoEditCompany(services, _) => !IsMineral(services)
       case DoSaveSection(d, _) => d == Mineral
       case DoReviewSection(d, _, _, _) => d == Mineral
       case DoUpload(u) => u.domain == Mineral && (Editable(c.status) || !Addition(c, u))
       case DoUploadEvidence(_, _, d, _) => d == Mineral
       case DoReviewDocument(i, verified) =>
         && i < |c.documents| && c.documents[i].domain == Mineral
         && (verified ==> Mineral in c.sections && c.sections[Mineral].data != map[] && OthersSettled(c.documents, i))
       case _ => false
  }

  /** An unsettled current mineral document. */
  ghost predicate Unsettled(documents: seq<Document>, j: nat) {
    j < |documents| && documents[j].current && documents[j].domain == Mineral && !Settled(documents[j])
  }

  ghost predicate Unfounded(section: Section, documents: seq<Document>) {
    && section.applicable && section.verdict == Passed
    && (section.data == map[] || exists j: nat :: Unsettled(documents, j))
  }

  lemma RestsOrUnfounded(c: Company)
    requires Mineral in c.sections
    ensures MineralRests(c) <==> !Unfounded(c.sections[Mineral], c.documents)
  {
    if !MineralRests(c) && c.sections[Mineral].data != map[] {
      var d :| d in c.documents && d.current && d.domain == Mineral && !Settled(d);
      var j :| 0 <= j < |c.documents| && c.documents[j] == d;
      assert Unsettled(c.documents, j);
    }
  }

  /** A version of other evidence, or an addition, leaves what is unsettled as it is. */
  lemma UnsettledStays(documents: seq<Document>, u: Upload, j: nat)
    requires Continues(documents, u) && Unsettled(documents, j)
    requires u.domain != Mineral || CurrentOf(documents, u.kind) == None
    ensures Unsettled(AddVersion(documents, u), j)
  {
  }

  lemma UploadedUnfounded(section: Section, documents: seq<Document>, u: Upload)
    requires Unfounded(section, documents) && Continues(documents, u)
    requires u.domain != Mineral || CurrentOf(documents, u.kind) == None
    ensures Unfounded(section, AddVersion(documents, u))
  {
    if j: nat :| Unsettled(documents, j) {
      UnsettledStays(documents, u, j);
    }
  }

  lemma UploadMends(c: Company, s: Step)
    requires Mineral in c.sections && !MineralRests(c) && Answer(c, s.now, s.action).Ok? && s.action.DoUpload?
    ensures MineralRests(After(c, s)) <==> MendsMineral(c, s)
  {
    var u := s.action.upload;
    UploadShape(c, u);
    if !MendsMineral(c, s) {
      RestsOrUnfounded(c);
      UploadedUnfounded(c.sections[Mineral], c.documents, u);
      RestsOrUnfounded(After(c, s));
    }
  }

  lemma EvidenceMends(c: Company, s: Step)
    requires Mineral in c.sections && !MineralRests(c) && Answer(c, s.now, s.action).Ok? && s.action.DoUploadEvidence?
    ensures MineralRests(After(c, s)) <==> MendsMineral(c, s)
  {
    if s.action.domain != Mineral {
      RestsOrUnfounded(c);
      UploadedUnfounded(c.sections[Mineral], c.documents,
        Upload(s.action.kind, s.action.domain, c.conditions[s.action.condition].scope, None, None,
               Some(s.action.condition), s.action.expires));
      RestsOrUnfounded(After(c, s));
    }
  }

  /** What the verification of document `i` leaves unsettled. */
  lemma UnsettledAfter(documents: seq<Document>, i: nat, j: nat)
    requires i < |documents|
    ensures Unsettled(documents[i := documents[i].(status := Verified)], j) <==> j != i && Unsettled(documents, j)
  {
  }

  lemma VerifiedUnfounded(section: Section, documents: seq<Document>, i: nat)
    requires Unfounded(section, documents) && i < |documents|
    ensures Unfounded(section, documents[i := documents[i].(status := Verified)])
      <==> section.data == map[] || exists j: nat :: j != i && Unsettled(documents, j)
  {
    var after := documents[i := documents[i].(status := Verified)];
    forall j: nat
      ensures Unsettled(after, j) <==> j != i && Unsettled(documents, j)
    {
      UnsettledAfter(documents, i, j);
    }
  }

  lemma OthersAre(documents: seq<Document>, i: nat)
    ensures OthersSettled(documents, i) <==> !exists j: nat :: j != i && Unsettled(documents, j)
  {
    assert forall j: nat :: Unsettled(documents, j) ==> 0 <= j < |documents|;
    if !OthersSettled(documents, i) {
      var j :| 0 <= j < |documents| && j != i && documents[j].current && documents[j].domain == Mineral
        && !Settled(documents[j]);
      assert Unsettled(documents, j);
    }
  }

  lemma VerificationMends(c: Company, s: Step)
    requires Mineral in c.sections && !MineralRests(c) && Answer(c, s.now, s.action).Ok?
    requires s.action.DoReviewDocument? && s.action.verified
    ensures MineralRests(After(c, s)) <==> MendsMineral(c, s)
  {
    var i := s.action.document;
    RestsOrUnfounded(c);
    VerifiedUnfounded(c.sections[Mineral], c.documents, i);
    OthersAre(c.documents, i);
    RestsOrUnfounded(After(c, s));
    if c.documents[i].domain != Mineral {
      assert forall j: nat :: Unsettled(c.documents, j) ==> j != i;
    }
  }

  lemma RefusalMends(c: Company, s: Step)
    requires Mineral in c.sections && !MineralRests(c) && Answer(c, s.now, s.action).Ok?
    requires s.action.DoReviewDocument? && !s.action.verified
    ensures MineralRests(After(c, s)) <==> MendsMineral(c, s)
  {
    var i := s.action.document;
    if c.documents[i].domain != Mineral {
      RestsOrUnfounded(c);
      RestsOrUnfounded(After(c, s));
      if j: nat :| Unsettled(c.documents, j) {
        assert Unsettled(After(c, s).documents, j);
      }
    }
  }

  lemma ProfileMends(c: Company, s: Step)
    requires Mineral in c.sections && !MineralRests(c) && Answer(c, s.now, s.action).Ok? && PartOf(s.action) == Profile
    ensures MineralRests(After(c, s)) <==> MendsMineral(c, s)
  {
  }

  /** An unfounded sign-off of the mineral domain is mended by these requests and by no other. */
  lemma MineralMendsExactly(c: Company, s: Step)
    requires Mineral in c.sections && !MineralRests(c)
    ensures MineralRests(After(c, s)) <==> MendsMineral(c, s)
  {
    if Answer(c, s.now, s.action).Ok? {
      match s.action
      case DoUpload(_) => UploadMends(c, s);
      case DoUploadEvidence(_, _, _, _) => EvidenceMends(c, s);
      case DoReviewDocument(_, verified) =>
        if verified {
          VerificationMends(c, s);
        } else {
          RefusalMends(c, s);
        }
      case DoEditCompany(_, _) => ProfileMends(c, s);
      case DoSaveSection(_, _) => ProfileMends(c, s);
      case DoReviewSection(_, _, _, _) => ProfileMends(c, s);
      case _ => RequestFrame(c, s);
    }
  }

  // ---------------------------------------------------------------- whole runs

  lemma MineralStays(c: Company, s: Step)
    requires Mineral in c.sections
    ensures Mineral in After(c, s).sections
  {
    RequestFrame(c, s);
    if PartOf(s.action) == Evidences {
      EvidencesKeepMineral(c, s);
    }
  }

  lemma EvidencesKeepMineral(c: Company, s: Step)
    requires Mineral in c.sections && PartOf(s.action) == Evidences
    ensures Mineral in After(c, s).sections
  {
  }

  /** Request `i` breaks the sign-off, and no request after it is one that mends it. */
  ghost predicate BrokenSince(start: Company, steps: seq<Step>, i: nat) {
    && i < |steps| && BreaksMineral(Run(start, steps[..i]), steps[i])
    && forall j | i < j < |steps| :: !MendsMineral(Run(start, steps[..j]), steps[j])
  }

  ghost predicate Broken(start: Company, steps: seq<Step>) {
    exists i: nat :: BrokenSince(start, steps, i)
  }

  /** The last request breaks the sign-off, or leaves it broken. */
  lemma BrokenNext(start: Company, init: seq<Step>, s: Step)
    ensures Broken(start, init + [s]) <==>
      BreaksMineral(Run(start, init), s) || (Broken(start, init) && !MendsMineral(Run(start, init), s))
  {
    var steps := init + [s];
    assert forall j | 0 <= j <= |init| :: steps[..j] == init[..j];
    assert init[..|init|] == init;
    if BreaksMineral(Run(start, init), s) {
      assert BrokenSince(start, steps, |init|);
    }
    if i: nat :| BrokenSince(start, init, i) && !MendsMineral(Run(start, init), s) {
      assert BrokenSince(start, steps, i);
    }
    if i: nat :| BrokenSince(start, steps, i) && i < |init| {
      assert !MendsMineral(Run(start, steps[..|init|]), steps[|init|]);
      assert BrokenSince(start, init, i);
    }
  }

  /**
   * After any run of requests the mineral sign-off rests on data and evidence, exactly unless some
   * edit declared a mineral service behind a verdict of not applicable and no request since is one that mends it.
   */
  lemma {:induction false} MineralRestsOverRuns(start: Company, steps: seq<Step>)
    requires JustOpened(start)
    ensures MineralRests(Run(start, steps)) <==> !Broken(start, steps)
    ensures Mineral in Run(start, steps).sections
  {
    if steps == [] {
      assert !Broken(start, steps);
    } else {
      var init, last := steps[..|steps| - 1], steps[|steps| - 1];
      var c := Run(start, init);
      MineralRestsOverRuns(start, init);
      assert steps == init + [last];
      BrokenNext(start, init, last);
      MineralStays(c, last);
      if MineralRests(c) {
        MineralRestsExactly(c, last);
      } else {
        assert !BreaksMineral(c, last);
        MineralMendsExactly(c, last);
      }
    }
  }

  /** Without such an edit the mineral sign-off means what the others do. */
  lemma MineralSignOffRests(start: Company, steps: seq<Step>)
    requires JustOpened(start) && forall i | 0 <= i < |steps| :: !BreaksMineral(Run(start, steps[..i]), steps[i])
    ensures var c := Run(start, steps);
      && Mineral in c.sections
      && (c.sections[Mineral].applicable && c.sections[Mineral].verdict == Passed ==>
            && c.sections[Mineral].data != map[]
            && forall x | x in c.documents && x.current && x.domain == Mineral ::
                 x.status == Verified || PendingAddition(x))
  {
    MineralRestsOverRuns(start, steps);
    assert !Broken(start, steps);
  }

  // ---------------------------------------------------------------- a run that breaks it

  const DAY := Now(0, true)

  const PLAIN: map<string, string> := map["note" := "held"]

  const FILLED: seq<Domain> := [Corporate, Regulatory, Fleet, Driving, Insurance, Safety, Operational, Platform]

  lemma FilledHolds(d: Domain) returns (i: nat)
    requires d != Mineral
    ensures i < |FILLED| && FILLED[i] == d
  {
    match d
    case Corporate => i := 0;
    case Regulatory => i := 1;
    case Fleet => i := 2;
    case Driving => i := 3;
    case Insurance => i := 4;
    case Safety => i := 5;
    case Operational => i := 6;
    case Platform => i := 7;
  }

  /** The place of a required document type in the list below. */
  function Place(i: Item): (p: nat)
    requires Required(i)
    ensures p < |NEEDED| && NEEDED[p] == i
  {
    match i
    case CacIncorporation => 0
    case TaxDocumentation => 1
    case RepresentativeDeclaration => 2
    case VehicleSchedule => 3
    case DriverSchedule => 4
    case MaintenanceProcedures => 5
    case VehicleInsurance => 6
    case HseDeclaration => 7
  }

  lemma NeededOnce(i: nat, j: nat)
    requires i < j < |NEEDED|
    ensures NEEDED[i] != NEEDED[j]
  {
  }

  const NEEDED: seq<Item> :=
    [CacIncorporation, TaxDocumentation, RepresentativeDeclaration, VehicleSchedule, DriverSchedule,
     MaintenanceProcedures, VehicleInsurance, HseDeclaration]

  /** A haulier with one vehicle, one driver and no mineral service. */
  function Haulier(): Company {
    Company(Draft, InitialSections(["bulk"]), [], [], [], [], ["bulk"], "desk", [Vehicle(true, None, None)],
            [Driver(true, 0, None, None)], {}, [], [])
  }

  ghost predicate OnDay(steps: seq<Step>) {
    forall s | s in steps :: s.now == DAY
  }

  /** What some run of requests on the first day makes of the haulier's file. */
  ghost predicate Attained(c: Company) {
    exists steps: seq<Step> :: OnDay(steps) && c == Run(Haulier(), steps)
  }

  lemma RunNext(c: Company, steps: seq<Step>, s: Step)
    ensures Run(c, steps + [s]) == After(Run(c, steps), s)
  {
    assert (steps + [s])[..|steps|] == steps;
  }

  lemma AttainedNext(c: Company, a: Action)
    requires Attained(c)
    ensures Attained(After(c, Step(DAY, a)))
  {
    var steps: seq<Step> :| OnDay(steps) && c == Run(Haulier(), steps);
    RunNext(Haulier(), steps, Step(DAY, a));
    assert OnDay(steps + [Step(DAY, a)]);
  }

  lemma AttainedIsReachable(c: Company)
    requires Attained(c)
    ensures Reachable(c, 0)
  {
    var steps: seq<Step> :| OnDay(steps) && c == Run(Haulier(), steps);
    assert forall i | 0 <= i < |steps| :: steps[i] in steps && steps[i].now.today == 0;
    assert Reaches(Haulier(), steps, c, 0);
  }

  lemma {:induction false} TooShort(s: string, part: string)
    requires |s| < |part|
    ensures !Contains(s, part)
  {
    if s != "" {
      TooShort(s[1..], part);
    }
  }

  lemma BulkIsNoMineral()
    ensures !IsMineral(["bulk"]) && IsMineral(["mineral"])
  {
    TooShort(Lower("bulk"), "mineral");
    assert forall s | s in ["bulk"] :: s == "bulk";
    assert Lower("mineral") == "mineral" && "mineral" in ["mineral"];
  }

  /** The first `n` sections are filled and the first `m` required documents are there. */
  ghost predicate Prepared(c: Company, n: nat, m: nat) {
    && Attained(c) && n <= |FILLED| && m <= |NEEDED|
    && c == Haulier().(sections := c.sections, documents := c.documents)
    && c.sections.Keys == DOMAINS && c.sections[Mineral] == Section(map[], false, Pending, 0)
    && c.sections[Corporate].applicable
    && (forall i | 0 <= i < n :: c.sections[FILLED[i]].data != map[])
    && |c.documents| == m
    && forall i | 0 <= i < m :: c.documents[i] ==
         Document(Listed(NEEDED[i]), Corporate, "", None, None, None, None, 1, true, Unreviewed)
  }

  lemma SaveFills(c: Company, d: Domain)
    requires c.status == Draft && d in c.sections
    ensures After(c, Step(DAY, DoSaveSection(d, PLAIN)))
      == c.(sections := c.sections[d := c.sections[d].(data := PLAIN, verdict := Pending, score := 0)])
  {
    assert "note" in PLAIN;
  }

  lemma SaveNext(c: Company, n: nat) returns (c': Company)
    requires Prepared(c, n, 0) && n < |FILLED|
    ensures Prepared(c', n + 1, 0)
  {
    var d := FILLED[n];
    assert d in DOMAINS && d != Mineral && "note" in PLAIN;
    AttainedNext(c, DoSaveSection(d, PLAIN));
    SaveFills(c, d);
    c' := c.(sections := c.sections[d := c.sections[d].(data := PLAIN, verdict := Pending, score := 0)]);
  }

  lemma {:induction false} Saved(n: nat) returns (c: Company)
    requires n <= |FILLED|
    ensures Prepared(c, n, 0)
  {
    if n == 0 {
      BulkIsNoMineral();
      c := Haulier();
      assert Run(c, []) == c;
    } else {
      c := Saved(n - 1);
      c := SaveNext(c, n - 1);
    }
  }

  lemma UploadNext(c: Company, m: nat) returns (c': Company)
    requires Prepared(c, |FILLED|, m) && m < |NEEDED|
    ensures Prepared(c', |FILLED|, m + 1)
  {
    var u := Upload(Listed(NEEDED[m]), Corporate, "", None, None, None, None);
    AttainedNext(c, DoUpload(u));
    UploadAppends(c, u, m);
    c' := UploadDocument(c, u).value;
    assert After(c, Step(DAY, DoUpload(u))) == c';
    UploadPrepares(c, c', u.kind, m);
  }

  lemma UploadPrepares(c: Company, c': Company, kind: Kind, m: nat)
    requires Prepared(c, |FILLED|, m) && m < |NEEDED| && Attained(c') && kind == Listed(NEEDED[m])
    requires c' == c.(sections := SetVerdict(c.sections, Corporate, Pending),
      documents := c.documents + [Document(kind, Corporate, "", None, None, None, None, 1, true, Unreviewed)])
    ensures Prepared(c', |FILLED|, m + 1)
  {
    assert forall i | 0 <= i < |FILLED| :: FILLED[i] in DOMAINS;
  }

  lemma UploadAppends(c: Company, u: Upload, m: nat)
    requires Prepared(c, |FILLED|, m) && m < |NEEDED|
    requires u == Upload(Listed(NEEDED[m]), Corporate, "", None, None, None, None)
    ensures UploadDocument(c, u) == Ok(c.(sections := SetVerdict(c.sections, Corporate, Pending),
      documents := c.documents + [Document(u.kind, Corporate, "", None, None, None, None, 1, true, Unreviewed)]))
  {
    forall d | d in c.documents
      ensures d.kind != u.kind
    {
      var i :| 0 <= i < m && c.documents[i] == d;
      NeededOnce(i, m);
    }
  }

  lemma {:induction false} Uploaded(m: nat) returns (c: Company)
    requires m <= |NEEDED|
    ensures Prepared(c, |FILLED|, m)
  {
    if m == 0 {
      c := Saved(|FILLED|);
    } else {
      c := Uploaded(m - 1);
      c := UploadNext(c, m - 1);
    }
  }

  lemma PreparedHasChecklist(c: Company)
    requires Prepared(c, |FILLED|, |NEEDED|)
    ensures ChecklistHeld(c)
  {
    forall i | i in CHECKLIST
      ensures exists d | d in c.documents :: d.kind == Listed(i) && d.current
    {
      assert Required(i) && c.documents[Place(i)] in c.documents;
    }
  }

  lemma PreparedIsFilled(c: Company)
    requires Prepared(c, |FILLED|, |NEEDED|)
    ensures SectionsFilled(c)
  {
    forall d | d in c.sections && c.sections[d].applicable
      ensures c.sections[d].data != map[]
    {
      var i := FilledHolds(d);
    }
    assert Corporate in c.sections;
  }

  lemma PreparedStands(c: Company)
    requires Prepared(c, |FILLED|, |NEEDED|)
    ensures EvidenceStands(c, DAY.today)
  {
    forall d | d in c.documents
      ensures d.status == Unreviewed && d.expires == None
    {
      var i :| 0 <= i < |c.documents| && c.documents[i] == d;
    }
  }

  lemma HaulierIsEquipped(c: Company)
    requires c == Haulier().(sections := c.sections, documents := c.documents)
    ensures Equipped(c) && NothingAsked(c) && c.status == Draft
  {
    assert c.vehicles[0] in c.vehicles && c.drivers[0] in c.drivers;
  }

  lemma PreparedIsReady(c: Company)
    requires Prepared(c, |FILLED|, |NEEDED|)
    ensures Editable(c.status) && ReadyToSubmit(c, DAY) && Attained(c)
  {
    HaulierIsEquipped(c);
    PreparedHasChecklist(c);
    PreparedIsFilled(c);
    PreparedStands(c);
  }

  lemma ReadyIsSubmitted(c: Company)
    requires Editable(c.status) && ReadyToSubmit(c, DAY)
    ensures After(c, Step(DAY, DoSubmit)) == c.(status := Submitted)
  {
    SubmitExactly(c, DAY);
  }

  /** The desk passes the mineral domain as not applicable. */
  lemma PassNext(c: Company) returns (c': Company)
    requires Attained(c) && c.status == UnderReview && !IsMineral(c.services)
    requires Mineral in c.sections && c.sections[Mineral] == Section(map[], false, Pending, 0)
    ensures Attained(c')
    ensures c' == c.(sections := c.sections[Mineral := Section(map[], false, Passed, 0)])
  {
    AttainedNext(c, DoReviewSection(Mineral, Passed, 0, false));
    c' := After(c, Step(DAY, DoReviewSection(Mineral, Passed, 0, false)));
  }

  /** Asked for information, the applicant declares a mineral service. */
  lemma DeclareNext(c: Company) returns (c': Company)
    requires Attained(c) && c.status == UnderReview && IsMineral(["mineral"]) && Mineral in c.sections
    ensures Attained(c') && Mineral in c'.sections && c'.sections[Mineral] == c.sections[Mineral].(applicable := true)
  {
    AttainedNext(c, DoAsk);
    var asked := After(c, Step(DAY, DoAsk));
    AttainedNext(asked, DoEditCompany(["mineral"], ""));
    c' := After(asked, Step(DAY, DoEditCompany(["mineral"], "")));
  }

  lemma SubmitNext(c: Company) returns (c': Company)
    requires Prepared(c, |FILLED|, |NEEDED|)
    ensures Attained(c') && c' == c.(status := Submitted)
  {
    PreparedIsReady(c);
    ReadyIsSubmitted(c);
    AttainedNext(c, DoSubmit);
    c' := After(c, Step(DAY, DoSubmit));
  }

  lemma StartNext(c: Company) returns (c': Company)
    requires Attained(c) && c.status == Submitted
    ensures Attained(c') && c' == c.(status := UnderReview)
  {
    AttainedNext(c, DoStartReview);
    c' := After(c, Step(DAY, DoStartReview));
  }

  /**
   * The desk passes the mineral domain as not applicable, asks for information, and the applicant
   * answers by declaring a mineral service: a pass without data now counts in the review.
   */
  lemma MineralVerdictCanBeStale()
    ensures exists c ::
      Reachable(c, 0) && Mineral in c.sections && c.sections[Mineral] == Section(map[], true, Passed, 0)
  {
    BulkIsNoMineral();
    var c := Uploaded(|NEEDED|);
    c := SubmitNext(c);
    c := StartNext(c);
    c := PassNext(c);
    c := DeclareNext(c);
    AttainedIsReachable(c);
  }
}
