/** What every run of requests keeps: the invariants of an application, inductive only together. */
module LogisticsInvariant {
  import opened Common
  import opened Rounding
  import opened LogisticsModel
  import opened LogisticsVersions

  // ---------------------------------------------------------------- the invariants

  /** A checklist document added without a renewal, waiting for its first verdict. */
  predicate PendingAddition(d: Document) {
    d.status == Unreviewed && d.version == 1 && d.kind.Listed?
  }

  predicate Settled(d: Document) {
    d.status == Verified || PendingAddition(d)
  }

  ghost predicate SectionsKept(sections: map<Domain, Section>) {
    sections.Keys == DOMAINS && forall d | d in sections && d != Mineral :: sections[d].applicable
  }

  /** A company that declares a mineral service is reviewed for it. */
  ghost predicate MineralReviewed(sections: map<Domain, Section>, services: seq<string>) {
    Mineral in sections && (IsMineral(services) ==> sections[Mineral].applicable)
  }

  /** What the verdict on a section other than the mineral one rests on. */
  ghost predicate SignedOff(section: Section, domain: Domain, documents: seq<Document>) {
    section.verdict == Passed ==>
      && section.data != map[]
      && (NeedsEvidence(domain) ==> exists d | d in documents :: d.current && d.domain == domain)
      && (forall d | d in documents && d.current && d.domain == domain :: Settled(d))
  }

  ghost predicate SignOffsKept(sections: map<Domain, Section>, documents: seq<Document>) {
    forall d | d in sections && d != Mineral :: SignedOff(sections[d], d, documents)
  }

  /** An outstanding request or a refuted current document shows in the status. */
  ghost predicate WaitingRecorded(c: Company) {
    && (NothingOutstanding(c.inquiries) || c.status == AwaitingInformation)
    && (NothingRefuted(c.documents) || c.status == AwaitingInformation || c.status == ConditionallyApproved
         || c.status == Rejected)
  }

  ghost predicate SectionsPassed(sections: map<Domain, Section>) {
    SomeApplicable(sections) && forall d | d in sections && sections[d].applicable ::
      sections[d].verdict == Passed && sections[d].data != map[]
  }

  ghost predicate AllSettled(documents: seq<Document>) {
    forall d | d in documents && d.current :: Settled(d)
  }

  ghost predicate HasVerified(documents: seq<Document>, kind: Kind) {
    exists d | d in documents :: d.kind == kind && d.current && d.status == Verified
  }

  ghost predicate ChecklistVerified(documents: seq<Document>) {
    forall i: Item | Required(i) :: HasVerified(documents, Listed(i))
  }

  ghost predicate Equipped(c: Company) {
    && c.contact != "" && c.services != []
    && (exists v | v in c.vehicles :: v.active) && (exists d | d in c.drivers :: d.active)
  }

  ghost predicate FullyCleared(c: Company) {
    && SectionsPassed(c.sections) && AllSettled(c.documents) && ChecklistVerified(c.documents)
    && (forall k | k in c.conditions :: k.cleared) && NothingOutstanding(c.inquiries) && Equipped(c)
  }

  ghost predicate ApprovedKept(c: Company) {
    c.status == Approved ==> FullyCleared(c)
  }

  ghost predicate Holds(restrictions: seq<Restriction>, scope: string, k: nat) {
    exists r | r in restrictions :: r.condition == Some(k) && r.scope == scope && !r.resolved
  }

  /** An outstanding condition on a service keeps a restriction on it. */
  ghost predicate ConditionsBind(conditions: seq<Condition>, restrictions: seq<Restriction>) {
    forall k | 0 <= k < |conditions| :: !conditions[k].cleared && conditions[k].scope != ""
      ==> Holds(restrictions, conditions[k].scope, k)
  }

  ghost predicate InRange(conditions: seq<Condition>, restrictions: seq<Restriction>) {
    forall r | r in restrictions && r.condition.Some? :: r.condition.value < |conditions|
  }

  /** A restriction raised for a lapsed document; once resolved, that version is no longer the current one. */
  ghost predicate Justified(documents: seq<Document>, r: Restriction, today: int) {
    && (r.automatic <==> r.document.Some?)
    && (r.document.Some? ==>
          && r.document.value < |documents|
          && var d := documents[r.document.value];
          && Lapsed(d.expires, today) && r.scope == d.scope && (r.resolved ==> !d.current))
  }

  ghost predicate AllJustified(documents: seq<Document>, restrictions: seq<Restriction>, today: int) {
    forall r | r in restrictions :: Justified(documents, r, today)
  }

  ghost predicate OncePerDocument(restrictions: seq<Restriction>) {
    forall a, b | 0 <= a < b < |restrictions| :: restrictions[a].document == restrictions[b].document
      ==> restrictions[a].document == None
  }

  predicate Share(a: Movement, b: Movement) {
    (a.vehicle.Some? && a.vehicle == b.vehicle) || (a.driver.Some? && a.driver == b.driver)
  }

  /** Active movements share no vehicle and no driver; a scheduled one has neither. */
  ghost predicate Exclusive(movements: seq<Movement>) {
    && (forall i, j | 0 <= i < j < |movements| :: Active(movements[i].status) && Active(movements[j].status)
         ==> !Share(movements[i], movements[j]))
    && (forall m | m in movements && m.status == Scheduled :: m.vehicle == None && m.driver == None)
  }

  /** Exactly the accepted requests have a movement, and one each. */
  ghost predicate OneMovementEach(orders: seq<Order>, movements: seq<Movement>) {
    && (forall m | m in movements :: m.order.Some? && m.order.value < |orders|
          && orders[m.order.value].status == AcceptedOrder && m.service == orders[m.order.value].service)
    && (forall i, j | 0 <= i < j < |movements| :: movements[i].order != movements[j].order)
    && (forall r | 0 <= r < |orders| :: OrderKept(orders[r], HasMovement(movements, r)))
  }

  predicate OrderKept(o: Order, moved: bool) {
    o.status == NewOrder || o.status == CancelledOrder || (o.status == AcceptedOrder && moved)
  }

  ghost predicate RecordsKept(c: Company, today: int) {
    && Chains(c.documents) && SectionsKept(c.sections) && SignOffsKept(c.sections, c.documents)
    && InRange(c.conditions, c.restrictions) && ConditionsBind(c.conditions, c.restrictions)
    && AllJustified(c.documents, c.restrictions, today) && OncePerDocument(c.restrictions)
  }

  /** One family of invariants. */
  datatype Law = Records | MineralDomain | Waiting | Approval | Assignment | Orders

  ghost predicate Obeys(law: Law, c: Company, today: int) {
    match law
    case Records => RecordsKept(c, today)
    case MineralDomain => MineralReviewed(c.sections, c.services)
    case Waiting => WaitingRecorded(c)
    case Approval => ApprovedKept(c)
    case Assignment => Exclusive(c.movements)
    case Orders => OneMovementEach(c.orders, c.movements)
  }

  ghost predicate Kept(c: Company, today: int) {
    forall law: Law :: Obeys(law, c, today)
  }

  /** The laws one by one. */
  ghost predicate Laws(c: Company, today: int) {
    && RecordsKept(c, today) && MineralReviewed(c.sections, c.services) && WaitingRecorded(c) && ApprovedKept(c)
    && Exclusive(c.movements) && OneMovementEach(c.orders, c.movements)
  }

  lemma Unfold(c: Company, today: int)
    requires Kept(c, today)
    ensures Laws(c, today)
  {
    assert Obeys(Records, c, today) && Obeys(Waiting, c, today) && Obeys(Approval, c, today);
    assert Obeys(Assignment, c, today) && Obeys(Orders, c, today) && Obeys(MineralDomain, c, today);
  }

  lemma Fold(c: Company, today: int)
    requires Laws(c, today)
    ensures Kept(c, today)
  {
  }

  // ---------------------------------------------------------------- the gates

  lemma CompleteMeans(c: Company, now: Now)
    requires CompletenessRefusal(c, now) == None
    ensures Equipped(c) && SomeApplicable(c.sections) && ApplicableFilled(c.sections)
    ensures RequiredSupplied(c.documents, now.today) && NothingOutstanding(c.inquiries) && NothingRefuted(c.documents)
  {
    var checks := Checks(c, now);
    GateIsExact(checks);
    assert checks[1] && checks[2] && checks[3] && checks[4] && checks[5] && checks[6];
  }

  lemma ApprovalMeans(c: Company, now: Now)
    requires ApprovalRefusal(c, now, false) == None
    ensures FullyCleared(c)
  {
    CompleteMeans(c, now);
    forall i: Item | Required(i)
      ensures HasVerified(c.documents, Listed(i))
    {
      assert Supplied(c.documents, Listed(i), now.today);
    }
  }

  // ---------------------------------------------------------------- what one part of the file does not touch

  lemma OtherOperations(c: Company, orders: seq<Order>, movements: seq<Movement>, today: int)
    requires Laws(c, today) && Exclusive(movements) && OneMovementEach(orders, movements)
    ensures Laws(c.(orders := orders, movements := movements), today)
  {
  }

  /** While the file is not approved, the profile and the fleet carry no obligation of their own. */
  lemma OtherProfile(
      c: Company, sections: map<Domain, Section>, services: seq<string>, contact: string, vehicles: seq<Vehicle>,
      drivers: seq<Driver>, today: int)
    requires Laws(c, today) && c.status != Approved
    requires SectionsKept(sections) && SignOffsKept(sections, c.documents) && MineralReviewed(sections, services)
    ensures Laws(c.(sections := sections, services := services, contact := contact, vehicles := vehicles,
      drivers := drivers), today)
  {
  }

  /** Requests may change freely as long as the status records what is outstanding. */
  lemma OtherInquiries(c: Company, inquiries: seq<Inquiry>, status: Status, today: int)
    requires Laws(c, today) && status != Approved && c.status != Approved
    requires NothingOutstanding(inquiries) || status == AwaitingInformation
    requires NothingRefuted(c.documents) || status == AwaitingInformation || status == c.status == ConditionallyApproved
    ensures Laws(c.(inquiries := inquiries, status := status), today)
  {
  }

  // ---------------------------------------------------------------- documents

  /** Adding a version leaves every other kind's verdicts alone. */
  lemma AddVersionSettled(documents: seq<Document>, u: Upload, domain: Domain)
    requires Continues(documents, u)
    ensures var after := AddVersion(documents, u);
      (u.domain != domain || (CurrentOf(documents, u.kind) == None && u.kind.Listed?)) ==>
        && ((exists d | d in documents :: d.current && d.domain == domain) ==> exists d | d in after ::
             d.current && d.domain == domain)
        && ((forall d | d in documents && d.current && d.domain == domain :: Settled(d))
              ==> forall d | d in after && d.current && d.domain == domain :: Settled(d))
  {
    var after, n := AddVersion(documents, u), |documents|;
    AddVersionShape(documents, u);
    if u.domain != domain || (CurrentOf(documents, u.kind) == None && u.kind.Listed?) {
      if d :| d in documents && d.current && d.domain == domain {
        var i :| 0 <= i < n && documents[i] == d;
        assert after[i] == d by {
          var p := CurrentOf(documents, u.kind);
          assert p.Some? ==> documents[p.value].domain == u.domain;
        }
        assert after[i] in after;
      }
      if forall d | d in documents && d.current && d.domain == domain :: Settled(d) {
        forall d | d in after && d.current && d.domain == domain
          ensures Settled(d)
        {
          var i :| 0 <= i < |after| && after[i] == d;
          if i < n {
            assert after[i] == documents[i] && documents[i] in documents;
          }
        }
      }
    }
  }

  lemma UploadKeepsSignOffs(c: Company, u: Upload, reset: bool)
    requires SectionsKept(c.sections) && SignOffsKept(c.sections, c.documents) && Continues(c.documents, u)
    requires reset || (CurrentOf(c.documents, u.kind) == None && u.kind.Listed?)
    ensures var sections := if reset then SetVerdict(c.sections, u.domain, Pending) else c.sections;
      SectionsKept(sections) && SignOffsKept(sections, AddVersion(c.documents, u))
  {
    var sections := if reset then SetVerdict(c.sections, u.domain, Pending) else c.sections;
    forall d | d in sections && d != Mineral
      ensures SignedOff(sections[d], d, AddVersion(c.documents, u))
    {
      assert SignedOff(c.sections[d], d, c.documents);
      AddVersionSettled(c.documents, u, d);
    }
  }

  /** A new version leaves the restrictions justified: dates and scopes stay, and `current` only falls. */
  lemma AddVersionJustified(documents: seq<Document>, u: Upload, restrictions: seq<Restriction>, today: int)
    requires AllJustified(documents, restrictions, today)
    ensures AllJustified(AddVersion(documents, u), restrictions, today)
  {
    AddVersionShape(documents, u);
    forall r | r in restrictions
      ensures Justified(AddVersion(documents, u), r, today)
    {
      assert Justified(documents, r, today);
    }
  }

  lemma UploadKeepsRecords(c: Company, u: Upload, reset: bool, today: int)
    requires RecordsKept(c, today) && Continues(c.documents, u)
    requires reset || (CurrentOf(c.documents, u.kind) == None && u.kind.Listed?)
    ensures RecordsKept(c.(documents := AddVersion(c.documents, u),
                           sections := if reset then SetVerdict(c.sections, u.domain, Pending) else c.sections), today)
  {
    AddVersionKeepsChains(c.documents, u);
    UploadKeepsSignOffs(c, u, reset);
    AddVersionJustified(c.documents, u, c.restrictions, today);
  }

  lemma AddVersionRefutes(documents: seq<Document>, u: Upload)
    requires NothingRefuted(documents)
    ensures NothingRefuted(AddVersion(documents, u))
  {
    AddVersionShape(documents, u);
    var after := AddVersion(documents, u);
    forall d | d in after && d.current
      ensures d.status != Refuted
    {
      var i :| 0 <= i < |after| && after[i] == d;
      assert i < |documents| ==> documents[i] in documents;
    }
  }

  /** A checklist addition leaves an approved file cleared. */
  lemma AdditionKeepsCleared(c: Company, u: Upload)
    requires FullyCleared(c) && CurrentOf(c.documents, u.kind) == None && u.kind.Listed?
    ensures FullyCleared(c.(documents := AddVersion(c.documents, u)))
  {
    AddVersionShape(c.documents, u);
    var after, n := AddVersion(c.documents, u), |c.documents|;
    assert after == c.documents + [after[n]];
    forall i: Item | Required(i)
      ensures HasVerified(after, Listed(i))
    {
      assert HasVerified(c.documents, Listed(i));
      var d :| d in c.documents && d.kind == Listed(i) && d.current && d.status == Verified;
      assert d in after;
    }
  }

  predicate Addition(c: Company, u: Upload) {
    CurrentOf(c.documents, u.kind) == None && u.kind.Listed?
  }

  /** What an accepted upload changes, by whether it reopens the section. */
  lemma UploadShape(c: Company, u: Upload)
    requires UploadDocument(c, u).Ok?
    ensures Continues(c.documents, u)
    ensures Addition(c, u) && !Editable(c.status)
      ==> UploadDocument(c, u).value == c.(documents := AddVersion(c.documents, u))
    ensures !(Addition(c, u) && !Editable(c.status)) ==>
      UploadDocument(c, u).value == c.(
        documents := AddVersion(c.documents, u), sections := SetVerdict(c.sections, u.domain, Pending),
        status := if c.status == Approved then AwaitingInformation else c.status)
  {
  }

  /** An upload that leaves verdicts and status alone. */
  lemma AdditionKeeps(c: Company, u: Upload, today: int)
    requires Kept(c, today) && Addition(c, u)
    ensures Kept(c.(documents := AddVersion(c.documents, u)), today)
  {
    Unfold(c, today);
    UploadKeepsRecords(c, u, false, today);
    if NothingRefuted(c.documents) {
      AddVersionRefutes(c.documents, u);
    }
    if c.status == Approved {
      AdditionKeepsCleared(c, u);
    }
    Fold(c.(documents := AddVersion(c.documents, u)), today);
  }

  /** An upload that reopens its section. */
  lemma RenewalKeeps(c: Company, u: Upload, status: Status, today: int)
    requires Kept(c, today) && Continues(c.documents, u)
    requires status == if c.status == Approved then AwaitingInformation else c.status
    ensures Kept(c.(documents := AddVersion(c.documents, u), sections := SetVerdict(c.sections, u.domain, Pending),
      status := status), today)
  {
    Unfold(c, today);
    UploadKeepsRecords(c, u, true, today);
    if NothingRefuted(c.documents) {
      AddVersionRefutes(c.documents, u);
    }
    Fold(c.(documents := AddVersion(c.documents, u), sections := SetVerdict(c.sections, u.domain, Pending),
      status := status), today);
  }

  lemma UploadKeeps(c: Company, u: Upload, today: int)
    requires Kept(c, today) && UploadDocument(c, u).Ok?
    ensures Kept(UploadDocument(c, u).value, today)
  {
    UploadShape(c, u);
    if Addition(c, u) && !Editable(c.status) {
      AdditionKeeps(c, u, today);
    } else {
      RenewalKeeps(c, u, UploadDocument(c, u).value.status, today);
    }
  }

  lemma EvidenceKeeps(c: Company, k: nat, kind: Kind, domain: Domain, expires: Option<int>, today: int)
    requires Kept(c, today) && UploadEvidence(c, k, kind, domain, expires).Ok?
    ensures Kept(UploadEvidence(c, k, kind, domain, expires).value, today)
  {
    RenewalKeeps(c, Upload(kind, domain, c.conditions[k].scope, None, None, Some(k), expires), c.status, today);
  }

  // ---------------------------------------------------------------- verdicts on documents

  lemma ReviewKeepsJustified(documents: seq<Document>, i: nat, status: Evidence, restrictions: seq<Restriction>,
      today: int)
    requires AllJustified(documents, restrictions, today) && i < |documents|
    ensures AllJustified(documents[i := documents[i].(status := status)], restrictions, today)
  {
    forall r | r in restrictions
      ensures Justified(documents[i := documents[i].(status := status)], r, today)
    {
      assert Justified(documents, r, today);
    }
  }

  lemma ReviewKeepsSignOffs(c: Company, i: nat, verified: bool)
    requires SectionsKept(c.sections) && SignOffsKept(c.sections, c.documents) && i < |c.documents|
    ensures var d := c.documents[i];
      var documents := c.documents[i := d.(status := if verified then Verified else Refuted)];
      var sections := if verified then c.sections else SetVerdict(c.sections, d.domain, Attention);
      SectionsKept(sections) && SignOffsKept(sections, documents)
  {
    var d := c.documents[i];
    var documents := c.documents[i := d.(status := if verified then Verified else Refuted)];
    var sections := if verified then c.sections else SetVerdict(c.sections, d.domain, Attention);
    forall x | x in sections && x != Mineral
      ensures SignedOff(sections[x], x, documents)
    {
      assert SignedOff(c.sections[x], x, c.documents);
      if sections[x].verdict == Passed {
        VerdictSettled(c.documents, i, if verified then Verified else Refuted, x);
      }
    }
  }

  lemma VerdictSettled(documents: seq<Document>, i: nat, status: Evidence, domain: Domain)
    requires i < |documents| && (status == Verified || documents[i].domain != domain)
    ensures var after := documents[i := documents[i].(status := status)];
      && ((exists d | d in documents :: d.current && d.domain == domain) ==> exists d | d in after ::
           d.current && d.domain == domain)
      && ((forall d | d in documents && d.current && d.domain == domain :: Settled(d))
            ==> forall d | d in after && d.current && d.domain == domain :: Settled(d))
  {
    var after := documents[i := documents[i].(status := status)];
    if d :| d in documents && d.current && d.domain == domain {
      var j :| 0 <= j < |documents| && documents[j] == d;
      assert after[j] in after && after[j].current && after[j].domain == domain;
    }
    forall d | d in after
      ensures d in documents || d == after[i]
    {
      var j :| 0 <= j < |after| && after[j] == d;
      assert j != i ==> after[j] == documents[j];
    }
  }

  lemma VerifyRefutes(documents: seq<Document>, i: nat)
    requires NothingRefuted(documents) && i < |documents|
    ensures NothingRefuted(documents[i := documents[i].(status := Verified)])
  {
    var after := documents[i := documents[i].(status := Verified)];
    forall d | d in after && d.current
      ensures d.status != Refuted
    {
      var j :| 0 <= j < |after| && after[j] == d;
      assert j != i ==> documents[j] in documents;
    }
  }

  lemma DocumentsKeep(c: Company, documents: seq<Document>, sections: map<Domain, Section>, status: Status, today: int)
    requires Kept(c, today) && status != Approved && c.status != Approved
    requires RecordsKept(c.(documents := documents, sections := sections), today)
      && MineralReviewed(sections, c.services)
    requires NothingOutstanding(c.inquiries) || status == AwaitingInformation
    requires NothingRefuted(documents) || status == AwaitingInformation || status == ConditionallyApproved
    ensures Kept(c.(documents := documents, sections := sections, status := status), today)
  {
    Unfold(c, today);
    Fold(c.(documents := documents, sections := sections, status := status), today);
  }

  /** A verdict on one document, with a status that shows it. */
  lemma VerdictKeeps(c: Company, i: nat, verified: bool, status: Status, today: int)
    requires Kept(c, today) && i < |c.documents| && Reviewable(c.status)
    requires var d := c.documents[i];
      var documents := c.documents[i := d.(status := if verified then Verified else Refuted)];
      status == if !verified then (if c.status == ConditionallyApproved then c.status else AwaitingInformation)
                else Resumed(c.(documents := documents)).status
    ensures var d := c.documents[i];
      Kept(c.(documents := c.documents[i := d.(status := if verified then Verified else Refuted)],
              sections := if verified then c.sections else SetVerdict(c.sections, d.domain, Attention),
              status := status), today)
  {
    var d := c.documents[i];
    var documents := c.documents[i := d.(status := if verified then Verified else Refuted)];
    var sections := if verified then c.sections else SetVerdict(c.sections, d.domain, Attention);
    assert RecordsKept(c, today) by {
      assert Obeys(Records, c, today);
    }
    assert WaitingRecorded(c) by {
      assert Obeys(Waiting, c, today);
    }
    assert MineralReviewed(sections, c.services) by {
      assert Obeys(MineralDomain, c, today);
    }
    VerdictKeepsRecords(c, i, verified, today);
    if verified && NothingRefuted(c.documents) {
      VerifyRefutes(c.documents, i);
    }
    DocumentsKeep(c, documents, sections, status, today);
  }

  lemma ReviewDocumentKeeps(c: Company, now: Now, i: nat, verified: bool)
    requires Kept(c, now.today) && ReviewDocument(c, now, i, verified).Ok?
    ensures Kept(ReviewDocument(c, now, i, verified).value, now.today)
  {
    VerdictKeeps(c, i, verified, ReviewDocument(c, now, i, verified).value.status, now.today);
  }

  lemma VerdictKeepsRecords(c: Company, i: nat, verified: bool, today: int)
    requires RecordsKept(c, today) && i < |c.documents|
    ensures var d := c.documents[i];
      RecordsKept(c.(documents := c.documents[i := d.(status := if verified then Verified else Refuted)],
                     sections := if verified then c.sections else SetVerdict(c.sections, d.domain, Attention)), today)
  {
    var status := if verified then Verified else Refuted;
    ReviewKeepsChains(c.documents, i, status);
    ReviewKeepsSignOffs(c, i, verified);
    ReviewKeepsJustified(c.documents, i, status, c.restrictions, today);
  }

  // ---------------------------------------------------------------- the applicant and the desk

  /** Replacing one section keeps the sign-offs when the new verdict rests on what it must. */
  lemma OneSection(sections: map<Domain, Section>, d: Domain, x: Section, documents: seq<Document>)
    requires SectionsKept(sections) && SignOffsKept(sections, documents) && d in sections
    requires d != Mineral ==> x.applicable && SignedOff(x, d, documents)
    ensures SectionsKept(sections[d := x]) && SignOffsKept(sections[d := x], documents)
  {
    var after := sections[d := x];
    forall e | e in after && e != Mineral
      ensures SignedOff(after[e], e, documents)
    {
      assert e != d ==> SignedOff(sections[e], e, documents);
    }
  }

  lemma SectionKeeps(c: Company, d: Domain, x: Section, today: int)
    requires Kept(c, today) && c.status != Approved && d in c.sections
    requires if d == Mineral then IsMineral(c.services) ==> x.applicable
             else c.sections[d].applicable ==> x.applicable && SignedOff(x, d, c.documents)
    ensures Kept(c.(sections := c.sections[d := x]), today)
  {
    Unfold(c, today);
    OneSection(c.sections, d, x, c.documents);
    OtherProfile(c, c.sections[d := x], c.services, c.contact, c.vehicles, c.drivers, today);
    Fold(c.(sections := c.sections[d := x]), today);
  }

  lemma ReviewSectionKeeps(c: Company, now: Now, d: Domain, verdict: Verdict, score: nat, applicable: bool)
    requires Kept(c, now.today) && ReviewSection(c, now, d, verdict, score, applicable).Ok?
    ensures Kept(ReviewSection(c, now, d, verdict, score, applicable).value, now.today)
  {
    SectionKeeps(c, d, c.sections[d].(verdict := verdict, score := score, applicable := applicable), now.today);
  }

  lemma SaveSectionKeeps(c: Company, d: Domain, data: map<string, string>, today: int)
    requires Kept(c, today) && SaveSection(c, d, data).Ok?
    ensures Kept(SaveSection(c, d, data).value, today)
  {
    assert d == Mineral && IsMineral(c.services) ==> c.sections[d].applicable by {
      assert Obeys(MineralDomain, c, today);
    }
    SectionKeeps(c, d, c.sections[d].(data := data, verdict := Pending, score := 0), today);
  }

  lemma EditCompanyKeeps(c: Company, services: seq<string>, contact: string, today: int)
    requires Kept(c, today) && EditCompany(c, services, contact).Ok?
    ensures Kept(EditCompany(c, services, contact).value, today)
  {
    Unfold(c, today);
    var x := c.sections[Mineral].(applicable := IsMineral(services));
    OneSection(c.sections, Mineral, x, c.documents);
    OtherProfile(c, c.sections[Mineral := x], services, contact, c.vehicles, c.drivers, today);
    Fold(EditCompany(c, services, contact).value, today);
  }

  lemma SubmitKeeps(c: Company, now: Now)
    requires Kept(c, now.today) && Submit(c, now).Ok?
    ensures Kept(Submit(c, now).value, now.today)
  {
    Unfold(c, now.today);
    CompleteMeans(c, now);
    Fold(Submit(c, now).value, now.today);
  }

  // ---------------------------------------------------------------- conditions and decisions

  lemma AddConditionKeeps(c: Company, scope: string, today: int)
    requires RecordsKept(c, today) && AddCondition(c, scope).Ok?
    ensures RecordsKept(AddCondition(c, scope).value, today)
  {
    var c' := AddCondition(c, scope).value;
    forall k | 0 <= k < |c'.conditions|
      ensures !c'.conditions[k].cleared && c'.conditions[k].scope != ""
        ==> Holds(c'.restrictions, c'.conditions[k].scope, k)
    {
      if k < |c.conditions| && !c.conditions[k].cleared && c.conditions[k].scope != "" {
        assert Holds(c.restrictions, c.conditions[k].scope, k);
        var r :| r in c.restrictions && r.condition == Some(k) && r.scope == c.conditions[k].scope && !r.resolved;
        assert r in c'.restrictions;
      } else if k == |c.conditions| && scope != "" {
        assert c'.restrictions[|c.restrictions|] in c'.restrictions;
      }
    }
    forall r | r in c'.restrictions
      ensures Justified(c'.documents, r, today)
    {
      assert r in c.restrictions ==> Justified(c.documents, r, today);
    }
  }

  /** Adding conditions touches nothing else. */
  lemma {:induction false} AddConditionsKeep(c: Company, scopes: seq<string>, today: int)
    requires RecordsKept(c, today) && AddConditions(c, scopes).Ok?
    ensures var c' := AddConditions(c, scopes).value;
      RecordsKept(c', today) && c' == c.(conditions := c'.conditions, restrictions := c'.restrictions)
    ensures scopes == [] ==> AddConditions(c, scopes).value == c
  {
    if scopes != [] {
      AddConditionsKeep(c, scopes[..|scopes| - 1], today);
      AddConditionKeeps(AddConditions(c, scopes[..|scopes| - 1]).value, scopes[|scopes| - 1], today);
    }
  }

  lemma DecidedWaits(c: Company, decision: Status)
    requires WaitingRecorded(c) && (c.status == UnderReview || c.status == ConditionallyApproved)
    requires decision == Approved ==> AllSettled(c.documents)
    requires decision == ConditionallyApproved || decision == Rejected || decision == Approved
    ensures WaitingRecorded(c.(status := decision))
  {
  }

  lemma DecidedKeeps(c: Company, c': Company, decision: Status, today: int)
    requires Kept(c, today) && RecordsKept(c', today) && (c.status == UnderReview || c.status == ConditionallyApproved)
    requires c' == c.(conditions := c'.conditions, restrictions := c'.restrictions)
    requires decision == Approved ==> c' == c && FullyCleared(c)
    requires decision == ConditionallyApproved || decision == Rejected || decision == Approved
    ensures Kept(c'.(status := decision), today)
  {
    Unfold(c, today);
    DecidedWaits(c, decision);
    var after := c'.(status := decision);
    assert WaitingRecorded(after);
    assert ApprovedKept(after);
    assert RecordsKept(after, today);
    Fold(after, today);
  }

  lemma DecisionShape(c: Company, now: Now, decision: Status, scopes: seq<string>)
    requires Decide(c, now, decision, scopes).Ok?
    ensures c.status == UnderReview || c.status == ConditionallyApproved
    ensures decision == Approved || decision == ConditionallyApproved || decision == Rejected
    ensures decision == Approved ==> scopes == [] && ApprovalRefusal(c, now, false) == None
    ensures AddConditions(c, scopes).Ok?
    ensures Decide(c, now, decision, scopes).value == AddConditions(c, scopes).value.(status := decision)
  {
  }

  lemma ConclusionKeeps(c: Company, decision: Status, scopes: seq<string>, today: int)
    requires Kept(c, today) && AddConditions(c, scopes).Ok?
    requires c.status == UnderReview || c.status == ConditionallyApproved
    requires decision == Approved || decision == ConditionallyApproved || decision == Rejected
    requires decision == Approved ==> scopes == [] && FullyCleared(c)
    ensures Kept(AddConditions(c, scopes).value.(status := decision), today)
  {
    assert RecordsKept(c, today) by {
      Unfold(c, today);
    }
    AddConditionsKeep(c, scopes, today);
    DecidedKeeps(c, AddConditions(c, scopes).value, decision, today);
  }

  lemma DecideKeeps(c: Company, now: Now, decision: Status, scopes: seq<string>)
    requires Kept(c, now.today) && Decide(c, now, decision, scopes).Ok?
    ensures Kept(Decide(c, now, decision, scopes).value, now.today)
  {
    DecisionShape(c, now, decision, scopes);
    if decision == Approved {
      ApprovalMeans(c, now);
    }
    ConclusionKeeps(c, decision, scopes, now.today);
  }

  lemma ClearConditionKeeps(c: Company, now: Now, k: nat)
    requires Kept(c, now.today) && ClearCondition(c, now, k).Ok?
    ensures Kept(ClearCondition(c, now, k).value, now.today)
  {
    Unfold(c, now.today);
    var c' := ClearCondition(c, now, k).value;
    forall j | 0 <= j < |c'.conditions|
      ensures !c'.conditions[j].cleared && c'.conditions[j].scope != ""
        ==> Holds(c'.restrictions, c'.conditions[j].scope, j)
    {
      assert j != k ==> c'.conditions[j] == c.conditions[j];
    }
    Fold(ClearCondition(c, now, k).value, now.today);
  }

  // ---------------------------------------------------------------- restrictions

  lemma RestrictKeeps(c: Company, scope: string, today: int)
    requires Kept(c, today) && Restrict(c, scope).Ok?
    ensures Kept(Restrict(c, scope).value, today)
  {
    Unfold(c, today);
    var c' := Restrict(c, scope).value;
    MoreRestrictions(c.conditions, c.restrictions, c'.restrictions[|c.restrictions|]);
    forall r | r in c'.restrictions
      ensures Justified(c'.documents, r, today)
    {
      assert r in c.restrictions ==> Justified(c.documents, r, today);
    }
    Fold(Restrict(c, scope).value, today);
  }

  lemma MoreRestrictions(conditions: seq<Condition>, restrictions: seq<Restriction>, r: Restriction)
    requires ConditionsBind(conditions, restrictions)
    ensures ConditionsBind(conditions, restrictions + [r])
  {
    forall k | 0 <= k < |conditions| && !conditions[k].cleared && conditions[k].scope != ""
      ensures Holds(restrictions + [r], conditions[k].scope, k)
    {
      assert Holds(restrictions, conditions[k].scope, k);
      var x :| x in restrictions && x.condition == Some(k) && x.scope == conditions[k].scope && !x.resolved;
      assert x in restrictions + [r];
    }
  }

  /** A restriction for a lapsed document is resolved only when a newer version has taken over. */
  lemma ReplacedIsSuperseded(documents: seq<Document>, i: nat, today: int)
    requires LatestIsCurrent(documents) && i < |documents| && Lapsed(documents[i].expires, today)
      && Replaced(documents, i, today)
    ensures !documents[i].current
  {
    var p := CurrentOf(documents, documents[i].kind).value;
    if documents[i].current {
      OneCurrent(documents, i, p);
    }
  }

  lemma ResolveKeeps(c: Company, now: Now, r: nat)
    requires Kept(c, now.today) && Resolve(c, now, r).Ok?
    ensures Kept(Resolve(c, now, r).value, now.today)
  {
    Unfold(c, now.today);
    var c' := Resolve(c, now, r).value;
    var item := c.restrictions[r];
    assert item in c.restrictions && Justified(c.documents, item, now.today);
    if item.document.Some? {
      ReplacedIsSuperseded(c.documents, item.document.value, now.today);
    }
    forall x | x in c'.restrictions
      ensures Justified(c'.documents, x, now.today) && (x.condition.Some? ==> x.condition.value < |c.conditions|)
    {
      var j :| 0 <= j < |c'.restrictions| && c'.restrictions[j] == x;
      assert c.restrictions[j] in c.restrictions && Justified(c.documents, c.restrictions[j], now.today);
    }
    ResolveBinds(c.conditions, c.restrictions, r);
    forall a, b | 0 <= a < b < |c'.restrictions| && c'.restrictions[a].document == c'.restrictions[b].document
      ensures c'.restrictions[a].document == None
    {
      assert c.restrictions[a].document == c.restrictions[b].document;
    }
    Fold(Resolve(c, now, r).value, now.today);
  }

  lemma ResolveBinds(conditions: seq<Condition>, restrictions: seq<Restriction>, r: nat)
    requires ConditionsBind(conditions, restrictions) && r < |restrictions|
    requires restrictions[r].condition.Some? ==>
      restrictions[r].condition.value < |conditions| && conditions[restrictions[r].condition.value].cleared
    ensures ConditionsBind(conditions, restrictions[r := restrictions[r].(resolved := true)])
  {
    var after := restrictions[r := restrictions[r].(resolved := true)];
    forall k | 0 <= k < |conditions| && !conditions[k].cleared && conditions[k].scope != ""
      ensures Holds(after, conditions[k].scope, k)
    {
      assert Holds(restrictions, conditions[k].scope, k);
      var x :| x in restrictions && x.condition == Some(k) && x.scope == conditions[k].scope && !x.resolved;
      var j :| 0 <= j < |restrictions| && restrictions[j] == x;
      assert j != r;
      assert after[j] in after;
    }
  }

  /** The monitor raises only justified restrictions, and none for a document that ever had one. */
  lemma {:induction false} GuardedKeeps(
      documents: seq<Document>, restrictions: seq<Restriction>, conditions: seq<Condition>, today: int, n: nat)
    requires n <= |documents| && AllJustified(documents, restrictions, today) && OncePerDocument(restrictions)
    requires ConditionsBind(conditions, restrictions) && InRange(conditions, restrictions)
    ensures var after := Guarded(documents, restrictions, today, n);
      AllJustified(documents, after, today) && OncePerDocument(after) && ConditionsBind(conditions, after)
        && InRange(conditions, after)
    decreases |documents| - n
  {
    if n < |documents| {
      var so := Guarded(documents, restrictions, today, n + 1);
      GuardedKeeps(documents, restrictions, conditions, today, n + 1);
      if Restricts(documents[n], today) && !ActiveAutomatic(so, n) {
        var added := Restriction(documents[n].scope, Some(n), None, true, false);
        GuardKeeps(documents, so, today, n);
        MoreRestrictions(conditions, so, added);
      }
    }
  }

  lemma GuardKeeps(documents: seq<Document>, restrictions: seq<Restriction>, today: int, n: nat)
    requires n < |documents| && AllJustified(documents, restrictions, today) && OncePerDocument(restrictions)
    requires Restricts(documents[n], today) && !ActiveAutomatic(restrictions, n)
    ensures var after := restrictions + [Restriction(documents[n].scope, Some(n), None, true, false)];
      AllJustified(documents, after, today) && OncePerDocument(after)
  {
    var added := Restriction(documents[n].scope, Some(n), None, true, false);
    var after := restrictions + [added];
    forall r | r in after
      ensures Justified(documents, r, today)
    {
      assert r in restrictions || r == added;
    }
    forall a | 0 <= a < |restrictions|
      ensures restrictions[a].document != Some(n)
    {
      assert restrictions[a] in restrictions && Justified(documents, restrictions[a], today);
    }
  }

  lemma MonitorKeeps(c: Company, today: int)
    requires Kept(c, today)
    ensures Kept(Monitor(c, today), today)
  {
    Unfold(c, today);
    GuardedKeeps(c.documents, c.restrictions, c.conditions, today, 0);
    Fold(Monitor(c, today), today);
  }

  // ---------------------------------------------------------------- operations

  lemma PlaceOrderKeeps(orders: seq<Order>, movements: seq<Movement>, o: Order)
    requires OneMovementEach(orders, movements) && o.status == NewOrder
    ensures OneMovementEach(orders + [o], movements)
  {
    var after := orders + [o];
    forall r | 0 <= r < |after|
      ensures OrderKept(after[r], HasMovement(movements, r))
    {
      if r < |orders| {
        assert OrderKept(orders[r], HasMovement(movements, r));
      }
    }
  }

  lemma AcceptKeeps(orders: seq<Order>, movements: seq<Movement>, r: nat)
    requires OneMovementEach(orders, movements) && r < |orders| && orders[r].status == NewOrder
    ensures !HasMovement(movements, r)
    ensures var added := Movement(Some(r), orders[r].service, Scheduled, None, None);
      OneMovementEach(orders[r := orders[r].(status := AcceptedOrder)], movements + [added])
  {
    var added := Movement(Some(r), orders[r].service, Scheduled, None, None);
    var orders', movements' := orders[r := orders[r].(status := AcceptedOrder)], movements + [added];
    forall q | 0 <= q < |orders'|
      ensures OrderKept(orders'[q], HasMovement(movements', q))
    {
      assert OrderKept(orders[q], HasMovement(movements, q));
      if q == r {
        assert added in movements';
      } else if HasMovement(movements, q) {
        var m :| m in movements && m.order == Some(q);
        assert m in movements';
      }
    }
    forall i, j | 0 <= i < j < |movements'|
      ensures movements'[i].order != movements'[j].order
    {
      assert movements'[i] in movements;
    }
  }

  lemma DeclineKeeps(orders: seq<Order>, movements: seq<Movement>, r: nat)
    requires OneMovementEach(orders, movements) && r < |orders| && orders[r].status == NewOrder
    ensures OneMovementEach(orders[r := orders[r].(status := CancelledOrder)], movements)
  {
    var after := orders[r := orders[r].(status := CancelledOrder)];
    forall q | 0 <= q < |after|
      ensures OrderKept(after[q], HasMovement(movements, q))
    {
      assert OrderKept(orders[q], HasMovement(movements, q));
    }
  }

  lemma UpdateMovementKeeps(orders: seq<Order>, movements: seq<Movement>, m: nat, x: Movement)
    requires OneMovementEach(orders, movements) && m < |movements|
    requires x.order == movements[m].order && x.service == movements[m].service
    ensures OneMovementEach(orders, movements[m := x])
  {
    var after := movements[m := x];
    forall y | y in after
      ensures y.order.Some? && y.order.value < |orders| && orders[y.order.value].status == AcceptedOrder
        && y.service == orders[y.order.value].service
    {
      var i :| 0 <= i < |after| && after[i] == y;
      assert movements[i] in movements;
    }
    forall q | 0 <= q < |orders|
      ensures OrderKept(orders[q], HasMovement(after, q))
    {
      assert OrderKept(orders[q], HasMovement(movements, q));
      if HasMovement(movements, q) {
        var y :| y in movements && y.order == Some(q);
        var i :| 0 <= i < |movements| && movements[i] == y;
        assert after[i] in after;
      }
    }
  }

  /** Replacing one movement keeps assignments exclusive when it shares nothing with the other active ones. */
  lemma UpdateMovementExclusive(movements: seq<Movement>, m: nat, x: Movement)
    requires Exclusive(movements) && m < |movements|
      && (x.status == Scheduled ==> x.vehicle == None && x.driver == None)
    requires forall i | 0 <= i < |movements| && i != m ::
      Active(movements[i].status) && Active(x.status) ==> !Share(movements[i], x)
    ensures Exclusive(movements[m := x])
  {
    var after := movements[m := x];
    forall y | y in after && y.status == Scheduled
      ensures y.vehicle == None && y.driver == None
    {
      var i :| 0 <= i < |after| && after[i] == y;
      assert i != m ==> movements[i] in movements;
    }
  }

  lemma AcceptOrderKeeps(c: Company, r: nat, today: int)
    requires Kept(c, today) && AcceptOrder(c, r).Ok?
    ensures Kept(AcceptOrder(c, r).value, today)
  {
    Unfold(c, today);
    assert OrderKept(c.orders[r], HasMovement(c.movements, r));
    AcceptKeeps(c.orders, c.movements, r);
    AddScheduled(c.movements, Movement(Some(r), c.orders[r].service, Scheduled, None, None));
    OtherOperations(c, AcceptOrder(c, r).value.orders, AcceptOrder(c, r).value.movements, today);
    Fold(AcceptOrder(c, r).value, today);
  }

  lemma AddScheduled(movements: seq<Movement>, m: Movement)
    requires Exclusive(movements) && m.status == Scheduled && m.vehicle == None && m.driver == None
    ensures Exclusive(movements + [m])
  {
  }

  lemma DeclineOrderKeeps(c: Company, r: nat, today: int)
    requires Kept(c, today) && DeclineOrder(c, r).Ok?
    ensures Kept(DeclineOrder(c, r).value, today)
  {
    Unfold(c, today);
    assert OrderKept(c.orders[r], HasMovement(c.movements, r));
    DeclineKeeps(c.orders, c.movements, r);
    OtherOperations(c, DeclineOrder(c, r).value.orders, c.movements, today);
    Fold(DeclineOrder(c, r).value, today);
  }

  /** The moved record shares nothing with another active one, given what the guards of `Assign` found. */
  lemma AssignedApart(
      movements: seq<Movement>, m: nat, vehicle: Option<nat>, driver: Option<nat>, x': Movement, i: nat)
    requires Exclusive(movements) && m < |movements| && i < |movements| && i != m
    requires vehicle.Some? ==> !VehicleBusy(movements, vehicle.value, m)
    requires driver.Some? ==> !DriverBusy(movements, driver.value, m)
    requires x'.vehicle == if vehicle.Some? then vehicle else movements[m].vehicle
    requires x'.driver == if driver.Some? then driver else movements[m].driver
    requires Active(movements[i].status) && (Active(movements[m].status) || movements[m].status == Scheduled)
    ensures !Share(movements[i], x')
  {
    var x := movements[m];
    assert x in movements;
    assert Active(x.status) ==> !Share(movements[i], x) && !Share(x, movements[i]);
  }

  /** What a guarded assignment or a status change does to one movement. */
  lemma MovedExclusive(movements: seq<Movement>, m: nat, vehicle: Option<nat>, driver: Option<nat>, x': Movement)
    requires Exclusive(movements) && m < |movements|
    requires vehicle.Some? ==> !VehicleBusy(movements, vehicle.value, m)
    requires driver.Some? ==> !DriverBusy(movements, driver.value, m)
    requires x'.vehicle == if vehicle.Some? then vehicle else movements[m].vehicle
    requires x'.driver == if driver.Some? then driver else movements[m].driver
    requires Active(x'.status) ==> Active(movements[m].status) || movements[m].status == Scheduled
    requires x'.status != Scheduled
    ensures Exclusive(movements[m := x'])
  {
    forall i | 0 <= i < |movements| && i != m && Active(movements[i].status) && Active(x'.status)
      ensures !Share(movements[i], x')
    {
      AssignedApart(movements, m, vehicle, driver, x', i);
    }
    UpdateMovementExclusive(movements, m, x');
  }

  /** What an accepted assignment changes, and what its guards found. */
  lemma AssignShape(c: Company, today: int, m: nat, vehicle: Option<nat>, driver: Option<nat>)
    requires Assign(c, today, m, vehicle, driver).Ok?
    ensures m < |c.movements|
    ensures var x := c.movements[m];
      Assign(c, today, m, vehicle, driver).value == c.(movements := c.movements[m := x.(
        vehicle := if vehicle.Some? then vehicle else x.vehicle,
        driver := if driver.Some? then driver else x.driver,
        status := if x.status == Scheduled then Assigned else x.status)])
    ensures vehicle.Some? ==> !VehicleBusy(c.movements, vehicle.value, m)
    ensures driver.Some? ==> !DriverBusy(c.movements, driver.value, m)
  {
  }

  lemma MoveKeeps(c: Company, m: nat, vehicle: Option<nat>, driver: Option<nat>, x': Movement, today: int)
    requires Kept(c, today) && m < |c.movements|
    requires vehicle.Some? ==> !VehicleBusy(c.movements, vehicle.value, m)
    requires driver.Some? ==> !DriverBusy(c.movements, driver.value, m)
    requires x'.vehicle == if vehicle.Some? then vehicle else c.movements[m].vehicle
    requires x'.driver == if driver.Some? then driver else c.movements[m].driver
    requires x'.order == c.movements[m].order && x'.service == c.movements[m].service
    requires Active(x'.status) ==> Active(c.movements[m].status) || c.movements[m].status == Scheduled
    requires x'.status != Scheduled
    ensures Kept(c.(movements := c.movements[m := x']), today)
  {
    Unfold(c, today);
    UpdateMovementKeeps(c.orders, c.movements, m, x');
    MovedExclusive(c.movements, m, vehicle, driver, x');
    OtherOperations(c, c.orders, c.movements[m := x'], today);
    Fold(c.(movements := c.movements[m := x']), today);
  }

  lemma AssignKeeps(c: Company, today: int, m: nat, vehicle: Option<nat>, driver: Option<nat>)
    requires Kept(c, today) && Assign(c, today, m, vehicle, driver).Ok?
    ensures Kept(Assign(c, today, m, vehicle, driver).value, today)
  {
    AssignShape(c, today, m, vehicle, driver);
    var x := c.movements[m];
    MoveKeeps(c, m, vehicle, driver, x.(
      vehicle := if vehicle.Some? then vehicle else x.vehicle,
      driver := if driver.Some? then driver else x.driver,
      status := if x.status == Scheduled then Assigned else x.status), today);
  }

  lemma SetStatusKeeps(c: Company, today: int, m: nat, next: MovementStatus)
    requires Kept(c, today) && SetStatus(c, m, next).Ok?
    ensures Kept(SetStatus(c, m, next).value, today)
  {
    MoveKeeps(c, m, None, None, c.movements[m].(status := next), today);
  }

  lemma PlaceKeeps(c: Company, service: string, today: int)
    requires Kept(c, today)
    ensures Kept(PlaceOrder(c, service).value, today)
  {
    Unfold(c, today);
    PlaceOrderKeeps(c.orders, c.movements, Order(service, NewOrder));
    OtherOperations(c, c.orders + [Order(service, NewOrder)], c.movements, today);
    Fold(PlaceOrder(c, service).value, today);
  }

  // ---------------------------------------------------------------- requests for information

  lemma AskKeeps(c: Company, today: int)
    requires Kept(c, today) && Ask(c).Ok?
    ensures Kept(Ask(c).value, today)
  {
    Unfold(c, today);
    OtherInquiries(c, c.inquiries + [Inquiry(Open, [])], AwaitingInformation, today);
    Fold(Ask(c).value, today);
  }

  /** The status records what is outstanding after one request changed. */
  lemma InquiryKeeps(c: Company, q: nat, item: Inquiry, resume: bool, today: int)
    requires Laws(c, today) && q < |c.inquiries| && Reviewable(c.status)
    requires item.status == Closed || c.inquiries[q].status != Closed
    ensures var c' := c.(inquiries := c.inquiries[q := item]);
      Laws(if resume then Resumed(c') else c', today)
  {
    var c' := c.(inquiries := c.inquiries[q := item]);
    if NothingOutstanding(c.inquiries) {
      assert c.inquiries[q] in c.inquiries;
    }
    OtherInquiries(c, c'.inquiries, if resume then Resumed(c').status else c'.status, today);
  }

  lemma RespondKeeps(c: Company, q: nat, documents: seq<nat>, today: int)
    requires Kept(c, today) && Respond(c, q, documents).Ok?
    ensures Kept(Respond(c, q, documents).value, today)
  {
    Unfold(c, today);
    InquiryKeeps(c, q, Inquiry(Responded, c.inquiries[q].responses + [documents]), false, today);
    Fold(Respond(c, q, documents).value, today);
  }

  lemma ReviewResponseKeeps(c: Company, now: Now, q: nat, accepted: bool)
    requires Kept(c, now.today) && ReviewResponse(c, now, q, accepted).Ok?
    ensures Kept(ReviewResponse(c, now, q, accepted).value, now.today)
  {
    Unfold(c, now.today);
    InquiryKeeps(c, q, c.inquiries[q].(status := if accepted then Closed else Open), accepted, now.today);
    Fold(ReviewResponse(c, now, q, accepted).value, now.today);
  }

  lemma WithdrawKeeps(c: Company, q: nat, today: int)
    requires Kept(c, today) && Withdraw(c, q).Ok?
    ensures Kept(Withdraw(c, q).value, today)
  {
    Unfold(c, today);
    InquiryKeeps(c, q, c.inquiries[q].(status := Closed), true, today);
    Fold(Withdraw(c, q).value, today);
  }

  lemma SaveVehicleKeeps(c: Company, i: nat, v: Vehicle, today: int)
    requires Kept(c, today) && SaveVehicle(c, i, v).Ok?
    ensures Kept(SaveVehicle(c, i, v).value, today)
  {
    Unfold(c, today);
    OtherProfile(c, c.sections, c.services, c.contact, SaveVehicle(c, i, v).value.vehicles, c.drivers, today);
    Fold(SaveVehicle(c, i, v).value, today);
  }

  lemma SaveDriverKeeps(c: Company, i: nat, d: Driver, today: int)
    requires Kept(c, today) && SaveDriver(c, i, d).Ok?
    ensures Kept(SaveDriver(c, i, d).value, today)
  {
    Unfold(c, today);
    OtherProfile(c, c.sections, c.services, c.contact, c.vehicles, SaveDriver(c, i, d).value.drivers, today);
    Fold(SaveDriver(c, i, d).value, today);
  }

  lemma StartReviewKeeps(c: Company, today: int)
    requires Kept(c, today) && StartReview(c).Ok?
    ensures Kept(StartReview(c).value, today)
  {
    Unfold(c, today);
    Fold(StartReview(c).value, today);
  }

  lemma RaiseConditionKeeps(c: Company, scope: string, today: int)
    requires Kept(c, today) && RaiseCondition(c, scope).Ok?
    ensures Kept(RaiseCondition(c, scope).value, today)
  {
    Unfold(c, today);
    AddConditionKeeps(c, scope, today);
    Fold(RaiseCondition(c, scope).value, today);
  }

  // ---------------------------------------------------------------- every run

  ghost predicate KeptAfter(r: Result<Company>, today: int) {
    r.Ok? ==> Kept(r.value, today)
  }

  lemma ApplicantKeeps(c: Company, now: Now, a: Action)
    requires Kept(c, now.today) && Answer(c, now, a).Ok?
    requires a.DoEditCompany? || a.DoSaveVehicle? || a.DoSaveDriver? || a.DoSaveSection? || a.DoSubmit? || a.DoUpload?
      || a.DoRespond? || a.DoUploadEvidence?
    ensures KeptAfter(Answer(c, now, a), now.today)
  {
    match a
    case DoEditCompany(services, contact) => EditCompanyKeeps(c, services, contact, now.today);
    case DoSaveVehicle(i, v) => SaveVehicleKeeps(c, i, v, now.today);
    case DoSaveDriver(i, d) => SaveDriverKeeps(c, i, d, now.today);
    case DoSaveSection(d, data) => SaveSectionKeeps(c, d, data, now.today);
    case DoSubmit => SubmitKeeps(c, now);
    case DoUpload(u) => UploadKeeps(c, u, now.today);
    case DoRespond(q, documents) => RespondKeeps(c, q, documents, now.today);
    case DoUploadEvidence(k, kind, domain, expires) => EvidenceKeeps(c, k, kind, domain, expires, now.today);
  }

  lemma DeskKeeps(c: Company, now: Now, a: Action)
    requires Kept(c, now.today) && Answer(c, now, a).Ok?
    requires a.DoStartReview? || a.DoReviewSection? || a.DoAsk? || a.DoRaiseCondition? || a.DoDecide?
      || a.DoReviewDocument? || a.DoReviewResponse? || a.DoWithdraw? || a.DoClearCondition? || a.DoRestrict?
      || a.DoResolve?
    ensures KeptAfter(Answer(c, now, a), now.today)
  {
    match a
    case DoStartReview => StartReviewKeeps(c, now.today);
    case DoReviewSection(d, verdict, score, applicable) => ReviewSectionKeeps(c, now, d, verdict, score, applicable);
    case DoAsk => AskKeeps(c, now.today);
    case DoRaiseCondition(scope) => RaiseConditionKeeps(c, scope, now.today);
    case DoDecide(decision, scopes) => DecideKeeps(c, now, decision, scopes);
    case DoReviewDocument(i, verified) => ReviewDocumentKeeps(c, now, i, verified);
    case DoReviewResponse(q, accepted) => ReviewResponseKeeps(c, now, q, accepted);
    case DoWithdraw(q) => WithdrawKeeps(c, q, now.today);
    case DoClearCondition(k) => ClearConditionKeeps(c, now, k);
    case DoRestrict(scope) => RestrictKeeps(c, scope, now.today);
    case DoResolve(r) => ResolveKeeps(c, now, r);
  }

  lemma AnswerKeeps(c: Company, now: Now, a: Action)
    requires Kept(c, now.today) && Answer(c, now, a).Ok?
    ensures KeptAfter(Answer(c, now, a), now.today)
  {
    match a
    case DoMonitor => MonitorKeeps(c, now.today);
    case DoPlaceOrder(service) => PlaceKeeps(c, service, now.today);
    case DoAcceptOrder(r) => AcceptOrderKeeps(c, r, now.today);
    case DoDeclineOrder(r) => DeclineOrderKeeps(c, r, now.today);
    case DoAssign(m, vehicle, driver) => AssignKeeps(c, now.today, m, vehicle, driver);
    case DoSetStatus(m, next) => SetStatusKeeps(c, now.today, m, next);
    case DoStartReview | DoAsk | DoReviewSection(_, _, _, _) | DoRaiseCondition(_) | DoDecide(_, _)
       | DoReviewDocument(_, _) | DoReviewResponse(_, _) | DoWithdraw(_) | DoClearCondition(_) | DoRestrict(_)
       | DoResolve(_) => DeskKeeps(c, now, a);
    case _ => ApplicantKeeps(c, now, a);
  }

  /** A later date keeps everything: lapsed documents stay lapsed. */
  lemma KeptLater(c: Company, today: int, later: int)
    requires Kept(c, today) && today <= later
    ensures Kept(c, later)
  {
    Unfold(c, today);
    forall r | r in c.restrictions
      ensures Justified(c.documents, r, later)
    {
      assert Justified(c.documents, r, today);
    }
    Fold(c, later);
  }

  lemma OpeningKept(c: Company, today: int)
    requires JustOpened(c)
    ensures Kept(c, today)
  {
    assert c.sections.Keys == DOMAINS;
    Fold(c, today);
  }

  lemma PrefixInOrder(steps: seq<Step>, n: nat)
    requires InOrder(steps) && n <= |steps|
    ensures InOrder(steps[..n])
  {
  }

  /** Every reachable file keeps the invariants, at any date from its last request on. */
  lemma {:induction false} ReachableKept(start: Company, steps: seq<Step>, today: int)
    requires JustOpened(start) && InOrder(steps)
    requires steps != [] ==> steps[|steps| - 1].now.today <= today
    ensures Kept(Run(start, steps), today)
  {
    if steps == [] {
      OpeningKept(start, today);
    } else {
      var init, last := steps[..|steps| - 1], steps[|steps| - 1];
      PrefixInOrder(steps, |steps| - 1);
      ReachableKept(start, init, last.now.today);
      var c := Run(start, init);
      if Answer(c, last.now, last.action).Ok? {
        AnswerKeeps(c, last.now, last.action);
      }
      KeptLater(Run(start, steps), last.now.today, today);
    }
  }
}
