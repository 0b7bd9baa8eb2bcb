/**
 * What each request of the logistics desk asks for, what it leaves and why it is refused, in the file's own fields:
 * a specification of the requests that shares none of their helpers.
 */
module LogisticsAnswers {
  import opened Common
  import opened LogisticsModel
  import opened LogisticsMonitor
  import opened LogisticsTheorems

  // ---------------------------------------------------------------- words of the specification

  /** Where the company may edit, and where the desk may act. */
  const WITH_COMPANY: set<Status> := {Draft, AwaitingInformation, Rejected}
  const WITH_DESK: set<Status> := {UnderReview, AwaitingInformation, ConditionallyApproved}

  const EVIDENCE_DOMAINS: set<Domain> := {Corporate, Fleet, Driving, Insurance, Safety}

  const MOVES: set<(MovementStatus, MovementStatus)> := {
    (Scheduled, Assigned), (Scheduled, Cancelled),
    (Assigned, Loading), (Assigned, InTransit), (Assigned, Cancelled),
    (Loading, InTransit), (Loading, Delayed), (Loading, Cancelled),
    (InTransit, Delayed), (InTransit, Arrived), (InTransit, Cancelled),
    (Delayed, InTransit), (Delayed, Arrived), (Delayed, Cancelled),
    (Arrived, Delivered)}

  ghost predicate InDateOn(expires: Option<int>, today: int) {
    expires.Some? ==> today <= expires.value
  }

  /** The same letter, in either case. */
  ghost predicate SameLetter(x: char, y: char) {
    || x == y
    || ('A' <= x <= 'Z' && y as int == x as int + 32)
    || ('A' <= y <= 'Z' && x as int == y as int + 32)
  }

  ghost predicate SameText(s: string, t: string) {
    |s| == |t| && forall i | 0 <= i < |s| :: SameLetter(s[i], t[i])
  }

  /** The word occurs in the text at position `i`, in either case. */
  ghost predicate OccursAt(s: string, word: string, i: nat) {
    i + |word| <= |s| && SameText(s[i..i + |word|], word)
  }

  ghost predicate MentionsMineral(services: seq<string>) {
    exists k: nat, i: nat :: k < |services| && OccursAt(services[k], "mineral", i)
  }

  /** The last document of this kind that is current. */
  ghost predicate LatestOf(documents: seq<Document>, kind: Kind, i: nat) {
    && i < |documents| && documents[i].kind == kind && documents[i].current
    && forall j | i < j < |documents| :: !(documents[j].kind == kind && documents[j].current)
  }

  ghost predicate HasCurrent(documents: seq<Document>, kind: Kind) {
    exists d | d in documents :: d.kind == kind && d.current
  }

  /** The current version, if there is one, is about the same things. */
  ghost predicate KeepsIdentity(documents: seq<Document>, u: Upload) {
    forall i: nat | LatestOf(documents, u.kind, i) ::
      && documents[i].domain == u.domain && documents[i].scope == u.scope && documents[i].vehicle == u.vehicle
      && documents[i].driver == u.driver && documents[i].condition == u.condition
  }

  ghost predicate Unrestricted(restrictions: seq<Restriction>, service: string) {
    service == "" || forall r | r in restrictions :: r.resolved || !SameText(r.scope, service)
  }

  /** A vehicle, or driver, used by a movement other than `m` that is under way. */
  ghost predicate UsedElsewhere(movements: seq<Movement>, vehicle: Option<nat>, driver: Option<nat>, m: nat) {
    exists i: nat :: i < |movements| && i != m && movements[i].status in {Assigned, Loading, InTransit, Delayed}
      && ((vehicle.Some? && movements[i].vehicle == vehicle) || (driver.Some? && movements[i].driver == driver))
  }

  ghost predicate FitVehicle(c: Company, today: int, v: nat, m: nat) {
    && v < |c.vehicles| && c.vehicles[v].active
    && c.vehicles[v].insurance.Some? && today <= c.vehicles[v].insurance.value
    && c.vehicles[v].roadworthiness.Some? && today <= c.vehicles[v].roadworthiness.value
    && !UsedElsewhere(c.movements, Some(v), None, m)
  }

  ghost predicate FitDriver(c: Company, today: int, d: nat, m: nat) {
    && d < |c.drivers| && c.drivers[d].active
    && today <= c.drivers[d].licence && c.drivers[d].medical.Some? && today <= c.drivers[d].medical.value
    && !UsedElsewhere(c.movements, None, Some(d), m)
  }

  // ---------------------------------------------------------------- what is granted

  ghost predicate SupportsSignOff(c: Company, d: Domain, today: int)
    requires d in c.sections
  {
    && c.sections[d].data != map[]
    && (d in EVIDENCE_DOMAINS ==> exists x | x in c.documents :: x.current && x.domain == d)
    && forall x | x in c.documents && x.current && x.domain == d :: x.status == Verified && InDateOn(x.expires, today)
  }

  ghost predicate GrantsReview(c: Company, today: int, d: Domain, verdict: Verdict, score: nat, applicable: bool) {
    && c.status in WITH_DESK && d in c.sections && verdict != Pending && score <= 100
    && (!applicable ==> d == Mineral && !MentionsMineral(c.services))
    && (verdict == Passed && applicable ==> SupportsSignOff(c, d, today))
  }

  ghost predicate LinksExist(c: Company, u: Upload) {
    && (u.vehicle.Some? ==> u.vehicle.value < |c.vehicles|) && (u.driver.Some? ==> u.driver.value < |c.drivers|)
    && (u.condition.Some? ==> u.condition.value < |c.conditions| && !c.conditions[u.condition.value].cleared)
    && (u.scope != "" ==> u.scope in c.services)
  }

  /** The first document of a checklist type. */
  ghost predicate FirstListed(c: Company, kind: Kind) {
    kind.Listed? && !HasCurrent(c.documents, kind)
  }

  ghost predicate GrantsUpload(c: Company, u: Upload) {
    && LinksExist(c, u) && KeepsIdentity(c.documents, u)
    && (!FirstListed(c, u.kind) ==>
          && c.status in WITH_COMPANY + {ConditionallyApproved, Approved}
          && (c.status == ConditionallyApproved ==> u.condition.Some?)
          && (c.status == Approved ==> HasCurrent(c.documents, u.kind)))
  }

  ghost predicate GrantsDecision(c: Company, now: Now, decision: Status, scopes: seq<string>) {
    match decision
    case Rejected => (c.status == UnderReview || c.status == ConditionallyApproved) && scopes == []
    case Approved =>
      && (c.status == UnderReview || c.status == ConditionallyApproved) && scopes == []
      && ReadyToSubmit(c, now) && FullyVerified(c.documents)
      && (forall d | d in c.sections && c.sections[d].applicable :: c.sections[d].verdict == Passed)
      && (forall k | k in c.conditions :: k.cleared) && (forall r | r in c.restrictions :: r.resolved)
    case ConditionallyApproved =>
      && c.status == UnderReview && ReadyToSubmit(c, now) && FullyVerified(c.documents)
      && (forall d | d in c.sections && c.sections[d].applicable ::
           c.sections[d].verdict == Passed || c.sections[d].verdict == Attention)
      && (forall s | s in scopes :: s == "" || s in c.services)
      && (scopes != [] || exists k | k in c.conditions :: !k.cleared)
    case _ => false
  }

  ghost predicate GrantsVerdict(c: Company, today: int, i: nat, verified: bool) {
    && i < |c.documents| && c.status in WITH_DESK && c.documents[i].current && c.documents[i].status == Unreviewed
    && (verified ==> InDateOn(c.documents[i].expires, today))
  }

  ghost predicate GrantsResponse(c: Company, q: nat, documents: seq<nat>) {
    && q < |c.inquiries| && c.status == AwaitingInformation && c.inquiries[q].status == Open && documents != []
    && forall i | i in documents :: i < |c.documents| && c.documents[i].current && c.documents[i].status != Refuted
  }

  ghost predicate Convinces(c: Company, response: seq<nat>, today: int) {
    response != [] && forall i | i in response ::
      && i < |c.documents| && c.documents[i].current && c.documents[i].status == Verified
      && InDateOn(c.documents[i].expires, today)
  }

  ghost predicate GrantsResponseReview(c: Company, today: int, q: nat, accepted: bool) {
    && q < |c.inquiries| && c.status in WITH_DESK && c.inquiries[q].status == Responded
    && (accepted ==>
          var responses := c.inquiries[q].responses;
          responses != [] && Convinces(c, responses[|responses| - 1], today))
  }

  ghost predicate GrantsClearance(c: Company, today: int, k: nat) {
    && k < |c.conditions| && c.status in WITH_DESK && !c.conditions[k].cleared
    && (exists d | d in c.documents :: d.current && d.condition == Some(k))
    && forall d | d in c.documents && d.current && d.condition == Some(k) ::
         d.status == Verified && InDateOn(d.expires, today)
  }

  /** A verified document of the kind is current and in date. */
  ghost predicate Renewed(c: Company, kind: Kind, today: int) {
    exists i: nat :: LatestOf(c.documents, kind, i) && c.documents[i].status == Verified
      && InDateOn(c.documents[i].expires, today)
  }

  ghost predicate GrantsResolution(c: Company, today: int, r: nat) {
    && r < |c.restrictions| && !c.restrictions[r].resolved
    && (forall k: nat | c.restrictions[r].condition == Some(k) && k < |c.conditions| :: c.conditions[k].cleared)
    && forall i: nat | c.restrictions[r].document == Some(i) && i < |c.documents| ::
         Renewed(c, c.documents[i].kind, today)
  }

  ghost predicate GrantsAssignment(c: Company, today: int, m: nat, vehicle: Option<nat>, driver: Option<nat>) {
    && m < |c.movements| && Unrestricted(c.restrictions, c.movements[m].service)
    && (vehicle.Some? ==> FitVehicle(c, today, vehicle.value, m))
    && (driver.Some? ==> FitDriver(c, today, driver.value, m))
    && (vehicle.Some? && driver.Some? ==>
          c.drivers[driver.value].dedicated == None || c.drivers[driver.value].dedicated == vehicle)
  }

  // ---------------------------------------------------------------- what a granted request leaves

  /** The list with entry `i` replaced, or appended when it is one past the end. */
  ghost predicate Stored<T(!new)>(before: seq<T>, after: seq<T>, i: nat, x: T) {
    && |after| == (if i < |before| then |before| else |before| + 1) && i < |after| && after[i] == x
    && forall j | 0 <= j < |before| && j != i :: after[j] == before[j]
  }

  /** The current version of the kind gives way to the new document, which is one version on. */
  ghost predicate Superseded(before: seq<Document>, after: seq<Document>, u: Upload) {
    && |after| == |before| + 1
    && (forall i: nat | i < |before| ::
          after[i] == if LatestOf(before, u.kind, i) then before[i].(current := false) else before[i])
    && var d := after[|before|];
    && d == Document(u.kind, u.domain, u.scope, u.vehicle, u.driver, u.condition, u.expires, d.version, true,
                     Unreviewed)
    && (!HasCurrent(before, u.kind) ==> d.version == 1)
    && forall i: nat | LatestOf(before, u.kind, i) :: d.version == before[i].version + 1
  }

  /** The section, if there is one, gets this verdict and no score. */
  ghost predicate Reopened(before: map<Domain, Section>, after: map<Domain, Section>, d: Domain, verdict: Verdict) {
    && after.Keys == before.Keys
    && forall x | x in before :: after[x] ==
         if x == d then Section(before[x].data, before[x].applicable, verdict, 0) else before[x]
  }

  /** The file returns to the desk when no request is open and no current document is refuted. */
  ghost predicate Returns(c: Company, inquiries: seq<Inquiry>, documents: seq<Document>) {
    && c.status == AwaitingInformation && (forall q | q in inquiries :: q.status == Closed)
    && forall d | d in documents && d.current :: d.status != Refuted
  }

  /** The restrictions that conditions on these services bring, the first of them condition `n`. */
  function Bound(scopes: seq<string>, n: nat): seq<Restriction> {
    if scopes == [] then []
    else
      var last := scopes[|scopes| - 1];
      Bound(scopes[..|scopes| - 1], n)
      + if last == "" then [] else [Restriction(last, None, Some(n + |scopes| - 1), false, false)]
  }

  ghost predicate LeavesEdit(c: Company, services: seq<string>, contact: string, c': Company) {
    && c' == c.(services := services, contact := contact, sections := c'.sections)
    && c'.sections.Keys == c.sections.Keys
    && forall d | d in c.sections ::
         c'.sections[d] == c.sections[d].(
           applicable := if d == Mineral then MentionsMineral(services) else c.sections[d].applicable)
  }

  ghost predicate LeavesUpload(c: Company, u: Upload, c': Company) {
    && c' == c.(documents := c'.documents, sections := c'.sections, status := c'.status)
    && Superseded(c.documents, c'.documents, u)
    && if FirstListed(c, u.kind) && c.status !in WITH_COMPANY
       then c'.sections == c.sections && c'.status == c.status
       else
         && Reopened(c.sections, c'.sections, u.domain, Pending)
         && c'.status == if c.status == Approved then AwaitingInformation else c.status
  }

  ghost predicate LeavesVerdict(c: Company, i: nat, verified: bool, c': Company)
    requires i < |c.documents|
  {
    && c' == c.(documents := c'.documents, sections := c'.sections, status := c'.status)
    && c'.documents == c.documents[i := c.documents[i].(status := if verified then Verified else Refuted)]
    && if verified
       then
         && c'.sections == c.sections
         && c'.status == if Returns(c, c.inquiries, c'.documents) then UnderReview else c.status
       else
         && Reopened(c.sections, c'.sections, c.documents[i].domain, Attention)
         && c'.status == if c.status == ConditionallyApproved then c.status else AwaitingInformation
  }

  ghost predicate LeavesInquiry(c: Company, q: nat, item: Inquiry, c': Company)
    requires q < |c.inquiries|
  {
    && c' == c.(inquiries := c.inquiries[q := item], status := c'.status)
    && c'.status == if item.status == Closed && Returns(c, c'.inquiries, c.documents) then UnderReview else c.status
  }

  /** An event the monitor has to record. */
  ghost predicate Owed(c: Company, today: int, key: EventKey) {
    match key
    case DocumentEvent(i, alert) =>
      && i < |c.documents| && c.documents[i].current && c.documents[i].expires.Some?
      && OwedAt(c.documents[i].expires.value, today, alert)
    case AssetEvent(InsuranceExpiry, v, expiry, alert) =>
      && v < |c.vehicles| && c.vehicles[v].active && c.vehicles[v].insurance == Some(expiry)
      && OwedAt(expiry, today, alert)
    case AssetEvent(RoadworthinessExpiry, v, expiry, alert) =>
      && v < |c.vehicles| && c.vehicles[v].active && c.vehicles[v].roadworthiness == Some(expiry)
      && OwedAt(expiry, today, alert)
    case AssetEvent(LicenceExpiry, d, expiry, alert) =>
      d < |c.drivers| && c.drivers[d].active && c.drivers[d].licence == expiry && OwedAt(expiry, today, alert)
    case AssetEvent(MedicalExpiry, d, expiry, alert) =>
      d < |c.drivers| && c.drivers[d].active && c.drivers[d].medical == Some(expiry) && OwedAt(expiry, today, alert)
  }

  /** Thirty days ahead an expiry is announced, and once past it is reported. */
  ghost predicate OwedAt(expiry: int, today: int, alert: Alert) {
    expiry <= today + 30 && (alert == Expired <==> expiry < today)
  }

  /** A current document whose date has passed stops its service. */
  ghost predicate Stops(d: Document, today: int) {
    d.current && d.scope != "" && !InDateOn(d.expires, today)
  }

  ghost predicate Stopped(restrictions: seq<Restriction>, i: nat) {
    exists r | r in restrictions :: r.document == Some(i) && r.automatic && !r.resolved
  }

  /** The restriction for a document that stops its service and had none in force. */
  ghost predicate NewlyStopped(c: Company, today: int, i: nat, r: Restriction) {
    && i < |c.documents| && Stops(c.documents[i], today) && !Stopped(c.restrictions, i)
    && r == Restriction(c.documents[i].scope, Some(i), None, true, false)
  }

  ghost predicate Warranted(c: Company, today: int, r: Restriction) {
    exists i: nat :: NewlyStopped(c, today, i, r)
  }

  /** Each document that stops its service has a restriction in force; those added are all needed, one a document. */
  ghost predicate LeavesRestrictions(c: Company, today: int, after: seq<Restriction>) {
    && c.restrictions <= after
    && (forall k | |c.restrictions| <= k < |after| :: Warranted(c, today, after[k]))
    && (forall a, b | |c.restrictions| <= a < b < |after| :: after[a].document != after[b].document)
    && forall i: nat | i < |c.documents| && Stops(c.documents[i], today) :: Stopped(after, i)
  }

  ghost predicate LeavesMonitored(c: Company, today: int, c': Company) {
    if c.status == Draft || c.status == Rejected then c' == c
    else
      && c' == c.(events := c'.events, restrictions := c'.restrictions)
      && (forall key :: key in c'.events <==> key in c.events || Owed(c, today, key))
      && LeavesRestrictions(c, today, c'.restrictions)
  }

  ghost predicate LeavesAccepted(c: Company, r: nat, c': Company)
    requires r < |c.orders|
  {
    && c' == c.(orders := c.orders[r := Order(c.orders[r].service, AcceptedOrder)], movements := c'.movements)
    && c'.movements == if exists m | m in c.movements :: m.order == Some(r) then c.movements
                       else c.movements + [Movement(Some(r), c.orders[r].service, Scheduled, None, None)]
  }

  ghost predicate LeavesAssigned(c: Company, m: nat, vehicle: Option<nat>, driver: Option<nat>, c': Company)
    requires m < |c.movements|
  {
    var before := c.movements[m];
    c' == c.(movements := c.movements[m := Movement(
      before.order, before.service, if before.status == Scheduled then Assigned else before.status,
      if vehicle == None then before.vehicle else vehicle, if driver == None then before.driver else driver)])
  }

  // ---------------------------------------------------------------- why a request is refused

  ghost predicate WhyUpload(c: Company, u: Upload, code: string) {
    if code == INVALID then !LinksExist(c, u)
    else if code == STATE then !FirstListed(c, u.kind) && c.status in {Submitted, UnderReview}
    else if code == "condition_required" then c.status == ConditionallyApproved && u.condition == None
    else if code == "renewal_required" then c.status == Approved && !HasCurrent(c.documents, u.kind)
    else code == "document_identity_changed" && !KeepsIdentity(c.documents, u)
  }

  ghost predicate WhyReview(c: Company, today: int, d: Domain, verdict: Verdict, score: nat, code: string) {
    if code == STATE then c.status !in WITH_DESK
    else if code == MISSING then d !in c.sections
    else if code == INVALID then verdict == Pending || score > 100
    else if code == "required_domain" then d != Mineral || MentionsMineral(c.services)
    else code == "domain_evidence_incomplete" && d in c.sections && !SupportsSignOff(c, d, today)
  }

  ghost predicate WhyIncomplete(c: Company, now: Now, code: string) {
    (code == "application_incomplete" || code == "invalid_evidence") && !ReadyToSubmit(c, now)
  }

  ghost predicate WhyDecision(c: Company, now: Now, decision: Status, scopes: seq<string>, code: string) {
    if code == STATE then c.status != UnderReview && c.status != ConditionallyApproved
    else if code == INVALID then
      decision !in {Approved, ConditionallyApproved, Rejected} || (scopes != [] && decision != ConditionallyApproved)
    else if code == CONFLICT then
      || c.status == decision || (exists s | s in scopes :: s != "" && s !in c.services)
      || (decision == ConditionallyApproved && scopes == [] && forall k | k in c.conditions :: k.cleared)
    else decision != Rejected && WhyNotApproved(c, now, code)
  }

  ghost predicate WhyNotApproved(c: Company, now: Now, code: string) {
    if code == "documents_not_verified" then !FullyVerified(c.documents)
    else if code == "domains_not_cleared" then
      exists d | d in c.sections && c.sections[d].applicable :: c.sections[d].verdict != Passed
    else if code == "conditions_not_cleared" then exists k | k in c.conditions :: !k.cleared
    else if code == "scope_restricted" then exists r | r in c.restrictions :: !r.resolved
    else WhyIncomplete(c, now, code)
  }

  ghost predicate WhyAssignment(
      c: Company, today: int, m: nat, vehicle: Option<nat>, driver: Option<nat>, code: string) {
    || (code == MISSING && m >= |c.movements|)
    || (code == INVALID && vehicle.Some? && !(vehicle.value < |c.vehicles| && c.vehicles[vehicle.value].active))
    || (code == INVALID && driver.Some? && !(driver.value < |c.drivers| && c.drivers[driver.value].active))
    || (code == CONFLICT && vehicle.Some? && driver.Some? && driver.value < |c.drivers|
        && c.drivers[driver.value].dedicated.Some? && c.drivers[driver.value].dedicated != vehicle)
    || (code == "service_scope_restricted" && m < |c.movements|
        && !Unrestricted(c.restrictions, c.movements[m].service))
    || (vehicle.Some? && vehicle.value < |c.vehicles| && WhyVehicle(c, today, vehicle.value, m, code))
    || (driver.Some? && driver.value < |c.drivers| && WhyDriver(c, today, driver.value, m, code))
  }

  ghost predicate WhyVehicle(c: Company, today: int, v: nat, m: nat, code: string)
    requires v < |c.vehicles|
  {
    var x := c.vehicles[v];
    || (code == "vehicle_insurance_undeclared" && x.insurance == None)
    || (code == "vehicle_roadworthiness_undeclared" && x.roadworthiness == None)
    || (code == "vehicle_insurance_expired" && x.insurance.Some? && x.insurance.value < today)
    || (code == "vehicle_roadworthiness_expired" && x.roadworthiness.Some? && x.roadworthiness.value < today)
    || (code == "vehicle_unavailable" && UsedElsewhere(c.movements, Some(v), None, m))
  }

  ghost predicate WhyDriver(c: Company, today: int, d: nat, m: nat, code: string)
    requires d < |c.drivers|
  {
    var x := c.drivers[d];
    || (code == "driver_licence_expired" && x.licence < today)
    || (code == "driver_medical_undeclared" && x.medical == None)
    || (code == "driver_medical_expired" && x.medical.Some? && x.medical.value < today)
    || (code == "driver_unavailable" && UsedElsewhere(c.movements, None, Some(d), m))
  }

  /** A record that is not there, a file that is not with the desk, or else the one guard of the request itself. */
  ghost predicate WhyAtDesk(c: Company, found: bool, code: string) {
    if code == MISSING then !found
    else if code == STATE then c.status !in WITH_DESK
    else code == CONFLICT && found && c.status in WITH_DESK
  }

  // ---------------------------------------------------------------- text

  lemma SameLetterIsLower(x: char, y: char)
    ensures SameLetter(x, y) <==> LowerChar(x) == LowerChar(y)
  {
  }

  lemma SameTextIsLower(s: string, t: string)
    ensures SameText(s, t) <==> Lower(s) == Lower(t)
  {
    if |s| == |t| {
      forall i | 0 <= i < |s|
        ensures SameLetter(s[i], t[i]) <==> Lower(s)[i] == Lower(t)[i]
      {
        SameLetterIsLower(s[i], t[i]);
      }
    }
  }

  ghost predicate IsAt(s: string, part: string, i: nat) {
    i + |part| <= |s| && s[i..i + |part|] == part
  }

  lemma {:induction false} ContainsMeans(s: string, part: string)
    ensures Contains(s, part) <==> exists i: nat :: IsAt(s, part, i)
  {
    if part <= s {
      assert IsAt(s, part, 0);
    } else if s != "" {
      assert !IsAt(s, part, 0);
      ContainsMeans(s[1..], part);
      if i: nat :| IsAt(s[1..], part, i) {
        assert s[i + 1..i + 1 + |part|] == s[1..][i..i + |part|];
        assert IsAt(s, part, i + 1);
      }
      if i: nat :| IsAt(s, part, i) {
        assert i > 0 && s[1..][i - 1..i - 1 + |part|] == s[i..i + |part|];
        assert IsAt(s[1..], part, i - 1);
      }
    }
  }

  lemma OccursInLower(s: string, i: nat)
    ensures OccursAt(s, "mineral", i) <==> IsAt(Lower(s), "mineral", i)
  {
    if i + 7 <= |s| {
      SameTextIsLower(s[i..i + 7], "mineral");
      assert Lower(s[i..i + 7]) == Lower(s)[i..i + 7];
      assert Lower("mineral") == "mineral";
    }
  }

  lemma MineralIsMentioned(services: seq<string>)
    ensures IsMineral(services) <==> MentionsMineral(services)
  {
    if s :| s in services && Contains(Lower(s), "mineral") {
      var k: nat :| k < |services| && services[k] == s;
      ContainsMeans(Lower(s), "mineral");
      var i: nat :| IsAt(Lower(s), "mineral", i);
      OccursInLower(s, i);
      assert OccursAt(services[k], "mineral", i);
    }
    if k: nat, i: nat :| k < |services| && OccursAt(services[k], "mineral", i) {
      OccursInLower(services[k], i);
      ContainsMeans(Lower(services[k]), "mineral");
      assert services[k] in services;
    }
  }

  lemma RestrictedMeans(restrictions: seq<Restriction>, service: string)
    ensures RestrictedService(restrictions, service) <==> !Unrestricted(restrictions, service)
  {
    forall r | r in restrictions
      ensures SameText(r.scope, service) <==> Lower(r.scope) == Lower(service)
    {
      SameTextIsLower(r.scope, service);
    }
  }

  // ---------------------------------------------------------------- documents

  lemma {:induction false} CurrentIsLatest(documents: seq<Document>, kind: Kind)
    ensures CurrentOf(documents, kind).Some? <==> HasCurrent(documents, kind)
    ensures forall i: nat :: CurrentOf(documents, kind) == Some(i) <==> LatestOf(documents, kind, i)
  {
    if documents != [] {
      var init, last := documents[..|documents| - 1], documents[|documents| - 1];
      CurrentIsLatest(init, kind);
      assert forall d | d in documents :: d in init || d == last;
      if last.current && last.kind == kind {
        assert last in documents;
      }
    }
  }

  lemma AddVersionSupersedes(documents: seq<Document>, u: Upload)
    ensures Superseded(documents, AddVersion(documents, u), u)
  {
    CurrentIsLatest(documents, u.kind);
  }

  // ---------------------------------------------------------------- the company's requests

  lemma EditExactly(c: Company, services: seq<string>, contact: string)
    ensures var r := EditCompany(c, services, contact); r.Ok? ==> var c' := r.value;
      c.status in WITH_COMPANY && LeavesEdit(c, services, contact, c')
    ensures var r := EditCompany(c, services, contact); r.Refused? ==> var code := r.code;
      c.status !in WITH_COMPANY && code == STATE
  {
    MineralIsMentioned(services);
  }

  lemma SaveVehicleExactly(c: Company, i: nat, v: Vehicle)
    ensures var r := SaveVehicle(c, i, v); r.Ok? ==> var c' := r.value;
      && i <= |c.vehicles| && c.status in WITH_COMPANY
      && c' == c.(vehicles := c'.vehicles) && Stored(c.vehicles, c'.vehicles, i, v)
    ensures var r := SaveVehicle(c, i, v); r.Refused? ==> var code := r.code;
      if code == MISSING then i > |c.vehicles| else code == STATE && c.status !in WITH_COMPANY
  {
  }

  lemma SaveDriverExactly(c: Company, i: nat, d: Driver)
    ensures var r := SaveDriver(c, i, d); r.Ok? ==> var c' := r.value;
      var dedicated := d.dedicated.Some? ==>
        d.dedicated.value < |c.vehicles| && c.vehicles[d.dedicated.value].active;
      && i <= |c.drivers| && c.status in WITH_COMPANY && dedicated
      && c' == c.(drivers := c'.drivers) && Stored(c.drivers, c'.drivers, i, d)
    ensures var r := SaveDriver(c, i, d); r.Refused? ==> var code := r.code;
      var dedicated := d.dedicated.Some? ==>
        d.dedicated.value < |c.vehicles| && c.vehicles[d.dedicated.value].active;
      if code == MISSING then i > |c.drivers|
      else if code == INVALID then !dedicated
      else code == STATE && c.status !in WITH_COMPANY
  {
  }

  lemma SaveSectionExactly(c: Company, d: Domain, data: map<string, string>)
    ensures var r := SaveSection(c, d, data); r.Ok? ==> var c' := r.value;
      && c.status in WITH_COMPANY && d in c.sections && data != map[]
      && c' == c.(sections := c.sections[d := Section(data, c.sections[d].applicable, Pending, 0)])
    ensures var r := SaveSection(c, d, data); r.Refused? ==> var code := r.code;
      if code == MISSING then d !in c.sections
      else if code == INVALID then data == map[]
      else code == STATE && c.status !in WITH_COMPANY
  {
  }

  /**
   * A document needs records to link to, and the current version of its type to be about the same things. The first
   * document of a checklist type asks for no more; any other needs a file that is open to the company or approved,
   * a condition to answer if the approval is conditional, and something to renew if it is full.
   */
  lemma UploadExactly(c: Company, u: Upload)
    ensures UploadDocument(c, u).Ok? <==> GrantsUpload(c, u)
    ensures UploadDocument(c, u).Ok? ==> LeavesUpload(c, u, UploadDocument(c, u).value)
  {
    CurrentIsLatest(c.documents, u.kind);
    AddVersionSupersedes(c.documents, u);
  }

  lemma UploadRefusals(c: Company, u: Upload)
    ensures var r := UploadDocument(c, u); r.Refused? ==> WhyUpload(c, u, r.code)
  {
    CurrentIsLatest(c.documents, u.kind);
  }

  lemma EvidenceExactly(c: Company, k: nat, kind: Kind, domain: Domain, expires: Option<int>)
    ensures var r := UploadEvidence(c, k, kind, domain, expires); r.Ok? ==> var c' := r.value;
      && k < |c.conditions| && c.status in {ConditionallyApproved, AwaitingInformation} && !c.conditions[k].cleared
      && c' == c.(documents := c'.documents, sections := c'.sections)
      && Reopened(c.sections, c'.sections, domain, Pending)
      && var u := Upload(kind, domain, c.conditions[k].scope, None, None, Some(k), expires);
      KeepsIdentity(c.documents, u) && Superseded(c.documents, c'.documents, u)
    ensures var r := UploadEvidence(c, k, kind, domain, expires); r.Refused? ==> var code := r.code;
      if code == MISSING then k >= |c.conditions|
      else if code == STATE then c.status !in {ConditionallyApproved, AwaitingInformation}
      else if code == "condition_already_cleared" then k < |c.conditions| && c.conditions[k].cleared
      else
        && code == "document_identity_changed" && k < |c.conditions|
        && !KeepsIdentity(c.documents, Upload(kind, domain, c.conditions[k].scope, None, None, Some(k), expires))
  {
    if k < |c.conditions| {
      CurrentIsLatest(c.documents, kind);
      AddVersionSupersedes(c.documents, Upload(kind, domain, c.conditions[k].scope, None, None, Some(k), expires));
    }
  }

  lemma IncompleteRefusals(c: Company, now: Now)
    ensures var r := CompletenessRefusal(c, now); r.Some? ==> WhyIncomplete(c, now, r.value)
  {
    CompletenessExact(c, now);
  }

  lemma SubmitRefusals(c: Company, now: Now)
    ensures var r := Submit(c, now);
      r.Refused? ==> if r.code == STATE then c.status !in WITH_COMPANY else WhyIncomplete(c, now, r.code)
  {
    IncompleteRefusals(c, now);
  }

  // ---------------------------------------------------------------- the desk's requests

  lemma StartReviewExactly(c: Company)
    ensures var r := StartReview(c); r.Ok? ==> var c' := r.value;
      c.status == Submitted && c' == c.(status := UnderReview)
    ensures var r := StartReview(c); r.Refused? ==> var code := r.code;
      c.status != Submitted && code == STATE
  {
  }

  /** A verdict on a section is stored as given; a pass needs data and settled evidence. */
  lemma ReviewSectionExactly(c: Company, now: Now, d: Domain, verdict: Verdict, score: nat, applicable: bool)
    ensures var r := ReviewSection(c, now, d, verdict, score, applicable);
      && (r.Ok? <==> GrantsReview(c, now.today, d, verdict, score, applicable))
      && (r.Ok? ==>
            r.value == c.(sections := c.sections[d := Section(c.sections[d].data, applicable, verdict, score)]))
  {
    MineralIsMentioned(c.services);
  }

  lemma ReviewSectionRefusals(c: Company, now: Now, d: Domain, verdict: Verdict, score: nat, applicable: bool)
    ensures var r := ReviewSection(c, now, d, verdict, score, applicable);
      r.Refused? ==> WhyReview(c, now.today, d, verdict, score, r.code)
  {
    MineralIsMentioned(c.services);
  }

  function WithConditions(c: Company, scopes: seq<string>): Company {
    c.(conditions := c.conditions + Raised(scopes), restrictions := c.restrictions + Bound(scopes, |c.conditions|))
  }

  lemma OneMoreCondition(c: Company, scopes: seq<string>)
    requires scopes != []
    ensures var so := AddCondition(WithConditions(c, scopes[..|scopes| - 1]), scopes[|scopes| - 1]);
      if so.Ok? then so.value == WithConditions(c, scopes) else so.code == CONFLICT
  {
    var init, last := scopes[..|scopes| - 1], scopes[|scopes| - 1];
    assert Raised(scopes) == Raised(init) + [Condition(last, false)];
  }

  lemma {:induction false} AddConditionsMeans(c: Company, scopes: seq<string>)
    ensures var r := AddConditions(c, scopes);
      if r.Ok? then r.value == WithConditions(c, scopes) else r.code == CONFLICT
  {
    if scopes != [] {
      AddConditionsMeans(c, scopes[..|scopes| - 1]);
      OneMoreCondition(c, scopes);
    }
  }

  /** A condition on a service restricts that service. */
  lemma RaiseConditionExactly(c: Company, scope: string)
    ensures var r := RaiseCondition(c, scope); r.Ok? ==> var c' := r.value;
      && c.status in WITH_DESK && (scope == "" || scope in c.services)
      && c' == c.(conditions := c.conditions + [Condition(scope, false)], restrictions := c.restrictions
                    + if scope == "" then [] else [Restriction(scope, None, Some(|c.conditions|), false, false)])
    ensures var r := RaiseCondition(c, scope); r.Refused? ==> var code := r.code;
      if code == STATE then c.status !in WITH_DESK else code == CONFLICT && scope != "" && scope !in c.services
  {
  }

  /** A rejection asks only for an open decision, and changes nothing but the status. */
  lemma RejectExactly(c: Company, now: Now, scopes: seq<string>)
    ensures Decide(c, now, Rejected, scopes).Ok?
      <==> (c.status == UnderReview || c.status == ConditionallyApproved) && scopes == []
    ensures Decide(c, now, Rejected, scopes).Ok? ==> Decide(c, now, Rejected, scopes).value == c.(status := Rejected)
  {
  }

  lemma ConditionsAreRaised(c: Company, now: Now, scopes: seq<string>)
    ensures var r := Decide(c, now, ConditionallyApproved, scopes);
      r.Ok? ==> r.value == WithConditions(c, scopes).(status := ConditionallyApproved)
  {
    AddConditionsMeans(c, scopes);
  }

  lemma NothingIsRaised(c: Company)
    ensures c.conditions + Raised([]) == c.conditions && c.restrictions + Bound([], |c.conditions|) == c.restrictions
  {
  }

  /** A decision is recorded with its conditions and the restrictions they bring; a rejection passes no gate. */
  lemma DecideExactly(c: Company, now: Now, decision: Status, scopes: seq<string>)
    ensures var r := Decide(c, now, decision, scopes);
      && (r.Ok? <==> GrantsDecision(c, now, decision, scopes))
      && (r.Ok? ==> r.value == c.(status := decision, conditions := c.conditions + Raised(scopes),
                                  restrictions := c.restrictions + Bound(scopes, |c.conditions|)))
  {
    NothingIsRaised(c);
    match decision
    case Approved => ApproveExactly(c, now, scopes);
    case ConditionallyApproved =>
      ApproveConditionallyExactly(c, now, scopes);
      ConditionsAreRaised(c, now, scopes);
    case Rejected => RejectExactly(c, now, scopes);
    case _ =>
  }

  ghost predicate OwnCode(code: string) {
    code != STATE && code != INVALID && code != CONFLICT
  }

  lemma ApprovalRefusals(c: Company, now: Now, conditional: bool)
    ensures var r := ApprovalRefusal(c, now, conditional);
      r.Some? ==> WhyNotApproved(c, now, r.value) && OwnCode(r.value)
  {
    IncompleteRefusals(c, now);
  }

  lemma DecisionRefusals(c: Company, now: Now, decision: Status, scopes: seq<string>)
    ensures var r := Decide(c, now, decision, scopes); r.Refused? ==> WhyDecision(c, now, decision, scopes, r.code)
  {
    AddConditionsExact(c, scopes);
    AddConditionsMeans(c, scopes);
    ApprovalRefusals(c, now, decision == ConditionallyApproved);
  }

  /** A verdict on a document: only a current, unreviewed one gets any, and only one in date is verified. */
  lemma ReviewDocumentExactly(c: Company, now: Now, i: nat, verified: bool)
    ensures var r := ReviewDocument(c, now, i, verified); r.Ok? ==> var c' := r.value;
      GrantsVerdict(c, now.today, i, verified) && LeavesVerdict(c, i, verified, c')
    ensures var r := ReviewDocument(c, now, i, verified); r.Refused? ==> var code := r.code;
      !GrantsVerdict(c, now.today, i, verified) && WhyAtDesk(c, i < |c.documents|, code)
  {
  }

  lemma AskExactly(c: Company)
    ensures var r := Ask(c); r.Ok? ==> var c' := r.value;
      c.status in WITH_DESK
      && c' == c.(inquiries := c.inquiries + [Inquiry(Open, [])], status := AwaitingInformation)
    ensures var r := Ask(c); r.Refused? ==> var code := r.code;
      c.status !in WITH_DESK && code == STATE
  {
  }

  lemma RespondExactly(c: Company, q: nat, documents: seq<nat>)
    ensures var r := Respond(c, q, documents); r.Ok? ==> var c' := r.value;
      && GrantsResponse(c, q, documents)
      && LeavesInquiry(c, q, Inquiry(Responded, c.inquiries[q].responses + [documents]), c')
    ensures var r := Respond(c, q, documents); r.Refused? ==> var code := r.code;
      && !GrantsResponse(c, q, documents)
      && if code == MISSING then q >= |c.inquiries|
         else if code == STATE then c.status != AwaitingInformation
         else code == CONFLICT && q < |c.inquiries| && c.status == AwaitingInformation
  {
  }

  /** A response is accepted on its last evidence only, and rejected by asking again. */
  lemma ReviewResponseExactly(c: Company, now: Now, q: nat, accepted: bool)
    ensures var r := ReviewResponse(c, now, q, accepted); r.Ok? ==> var c' := r.value;
      && GrantsResponseReview(c, now.today, q, accepted)
      && LeavesInquiry(c, q, Inquiry(if accepted then Closed else Open, c.inquiries[q].responses), c')
    ensures var r := ReviewResponse(c, now, q, accepted); r.Refused? ==> var code := r.code;
      !GrantsResponseReview(c, now.today, q, accepted) && WhyAtDesk(c, q < |c.inquiries|, code)
  {
  }

  lemma WithdrawExactly(c: Company, q: nat)
    ensures var r := Withdraw(c, q); r.Ok? ==> var c' := r.value;
      && q < |c.inquiries| && c.status in WITH_DESK && c.inquiries[q].status != Closed
      && LeavesInquiry(c, q, Inquiry(Closed, c.inquiries[q].responses), c')
    ensures var r := Withdraw(c, q); r.Refused? ==> var code := r.code;
      && WhyAtDesk(c, q < |c.inquiries|, code)
      && (q < |c.inquiries| && c.status in WITH_DESK ==> c.inquiries[q].status == Closed)
  {
  }

  /** A condition is cleared exactly on current evidence, all of it verified and in date. */
  lemma ClearExactly(c: Company, now: Now, k: nat)
    ensures var r := ClearCondition(c, now, k); r.Ok? ==> var c' := r.value;
      && GrantsClearance(c, now.today, k)
      && c' == c.(conditions := c.conditions[k := Condition(c.conditions[k].scope, true)])
    ensures var r := ClearCondition(c, now, k); r.Refused? ==> var code := r.code;
      !GrantsClearance(c, now.today, k) && WhyAtDesk(c, k < |c.conditions|, code)
  {
  }

  /** A restriction applies from the moment it is made. */
  lemma RestrictExactly(c: Company, scope: string)
    ensures var r := Restrict(c, scope); r.Ok? ==> var c' := r.value;
      scope in c.services && c' == c.(restrictions := c.restrictions + [Restriction(scope, None, None, false, false)])
    ensures var r := Restrict(c, scope); r.Refused? ==> var code := r.code;
      scope !in c.services && code == INVALID
  {
  }

  lemma RenewedMeans(c: Company, today: int, i: nat)
    requires i < |c.documents|
    ensures Replaced(c.documents, i, today) <==> Renewed(c, c.documents[i].kind, today)
  {
    CurrentIsLatest(c.documents, c.documents[i].kind);
  }

  /** A restriction is lifted exactly when its condition is cleared and its document renewed. */
  lemma ResolveExactly(c: Company, now: Now, n: nat)
    ensures var r := Resolve(c, now, n); r.Ok? ==> var c' := r.value;
      && GrantsResolution(c, now.today, n)
      && c' == c.(restrictions := c.restrictions[n := c.restrictions[n].(resolved := true)])
    ensures var r := Resolve(c, now, n); r.Refused? ==> var code := r.code;
      && !GrantsResolution(c, now.today, n)
      && if code == MISSING then n >= |c.restrictions| else code == CONFLICT && n < |c.restrictions|
  {
    if n < |c.restrictions| && c.restrictions[n].document.Some? && c.restrictions[n].document.value < |c.documents| {
      RenewedMeans(c, now.today, c.restrictions[n].document.value);
    }
  }

  // ---------------------------------------------------------------- the monitor

  lemma OwedIsDue(c: Company, today: int, key: EventKey)
    ensures Due(c, today, key) <==> Owed(c, today, key)
  {
  }

  lemma RaisedStops(c: Company, today: int, r: Restriction)
    requires RaisedFor(c.documents, r, today) && !ActiveAutomatic(c.restrictions, r.document.value)
    ensures Warranted(c, today, r)
  {
    assert NewlyStopped(c, today, r.document.value, r);
  }

  lemma MonitorRestricts(c: Company, today: int)
    requires Monitored(c.status)
    ensures LeavesRestrictions(c, today, Monitor(c, today).restrictions)
  {
    var after := Monitor(c, today).restrictions;
    MonitorIsDeclarative(c, today);
    forall k | |c.restrictions| <= k < |after|
      ensures Warranted(c, today, after[k])
    {
      RaisedStops(c, today, after[k]);
    }
    forall i: nat | i < |c.documents| && Stops(c.documents[i], today)
      ensures Stopped(after, i)
    {
      assert Restricts(c.documents[i], today) && ActiveAutomatic(after, i);
    }
  }

  /** A monitoring run, in the dates of the records themselves. */
  lemma MonitorExactly(c: Company, today: int)
    ensures LeavesMonitored(c, today, Monitor(c, today))
  {
    if Monitored(c.status) {
      MonitorRestricts(c, today);
      MonitorIsDeclarative(c, today);
      forall key
        ensures Due(c, today, key) <==> Owed(c, today, key)
      {
        OwedIsDue(c, today, key);
      }
    }
  }

  // ---------------------------------------------------------------- operations

  lemma AcceptExactly(c: Company, n: nat)
    ensures var r := AcceptOrder(c, n); r.Ok? ==> var c' := r.value;
      && n < |c.orders| && c.orders[n].status in {NewOrder, BlockedOrder}
      && Unrestricted(c.restrictions, c.orders[n].service) && LeavesAccepted(c, n, c')
    ensures var r := AcceptOrder(c, n); r.Refused? ==> var code := r.code;
      if code == MISSING then n >= |c.orders|
      else if code == "service_scope_restricted" then
        n < |c.orders| && !Unrestricted(c.restrictions, c.orders[n].service)
      else
        && code == "transport_request_not_acceptible" && n < |c.orders|
        && c.orders[n].status !in {NewOrder, BlockedOrder}
  {
    if n < |c.orders| {
      RestrictedMeans(c.restrictions, c.orders[n].service);
    }
  }

  lemma DeclineExactly(c: Company, n: nat)
    ensures var r := DeclineOrder(c, n); r.Ok? ==> var c' := r.value;
      && n < |c.orders| && c.orders[n].status in {NewOrder, BlockedOrder}
      && c' == c.(orders := c.orders[n := Order(c.orders[n].service, CancelledOrder)])
    ensures var r := DeclineOrder(c, n); r.Refused? ==> var code := r.code;
      if code == MISSING then n >= |c.orders|
      else
        && code == "transport_request_not_declinable" && n < |c.orders|
        && c.orders[n].status !in {NewOrder, BlockedOrder}
  {
  }

  lemma BusyMeans(movements: seq<Movement>, x: nat, m: nat)
    ensures VehicleBusy(movements, x, m) <==> UsedElsewhere(movements, Some(x), None, m)
    ensures DriverBusy(movements, x, m) <==> UsedElsewhere(movements, None, Some(x), m)
  {
  }

  lemma VehicleFits(c: Company, today: int, v: nat, m: nat)
    requires v < |c.vehicles| && c.vehicles[v].active
    ensures var r := VehicleRefusal(c, today, v, m); r == None ==>
      FitVehicle(c, today, v, m)
    ensures var r := VehicleRefusal(c, today, v, m); r.Some? ==> var code := r.value;
      !FitVehicle(c, today, v, m) && WhyVehicle(c, today, v, m, code)
  {
    BusyMeans(c.movements, v, m);
  }

  lemma DriverFits(c: Company, today: int, d: nat, m: nat)
    requires d < |c.drivers| && c.drivers[d].active
    ensures var r := DriverRefusal(c, today, d, m); r == None ==>
      FitDriver(c, today, d, m)
    ensures var r := DriverRefusal(c, today, d, m); r.Some? ==> var code := r.value;
      !FitDriver(c, today, d, m) && WhyDriver(c, today, d, m, code)
  {
    BusyMeans(c.movements, d, m);
  }

  /** A movement gets only a vehicle and a driver that are fit, free and, if the driver is dedicated, together. */
  lemma AssignExactly(c: Company, today: int, m: nat, vehicle: Option<nat>, driver: Option<nat>)
    ensures Assign(c, today, m, vehicle, driver).Ok? <==> GrantsAssignment(c, today, m, vehicle, driver)
    ensures Assign(c, today, m, vehicle, driver).Ok? ==>
      LeavesAssigned(c, m, vehicle, driver, Assign(c, today, m, vehicle, driver).value)
  {
    if m < |c.movements| {
      RestrictedMeans(c.restrictions, c.movements[m].service);
    }
    if vehicle.Some? && vehicle.value < |c.vehicles| && c.vehicles[vehicle.value].active {
      VehicleFits(c, today, vehicle.value, m);
    }
    if driver.Some? && driver.value < |c.drivers| && c.drivers[driver.value].active {
      DriverFits(c, today, driver.value, m);
    }
  }

  lemma AssignRefusals(c: Company, today: int, m: nat, vehicle: Option<nat>, driver: Option<nat>)
    ensures var r := Assign(c, today, m, vehicle, driver);
      r.Refused? ==> WhyAssignment(c, today, m, vehicle, driver, r.code)
  {
    if m < |c.movements| {
      RestrictedMeans(c.restrictions, c.movements[m].service);
    }
    if vehicle.Some? && vehicle.value < |c.vehicles| && c.vehicles[vehicle.value].active {
      VehicleFits(c, today, vehicle.value, m);
    }
    if driver.Some? && driver.value < |c.drivers| && c.drivers[driver.value].active {
      DriverFits(c, today, driver.value, m);
    }
  }

  lemma MoveExactly(c: Company, m: nat, next: MovementStatus)
    ensures var r := SetStatus(c, m, next); r.Ok? ==> var c' := r.value;
      && m < |c.movements| && (c.movements[m].status, next) in MOVES
      && c' == c.(movements := c.movements[m := c.movements[m].(status := next)])
    ensures var r := SetStatus(c, m, next); r.Refused? ==> var code := r.code;
      if code == MISSING then m >= |c.movements|
      else
        && code == "invalid_movement_status_transition" && m < |c.movements|
        && (c.movements[m].status, next) !in MOVES
  {
  }
}
