/**
 * The records of one logistics company and its application, and what each
 * request of logistics/views.py does to them. A request is refused as a whole
 * or taken as a whole.
 */
module LogisticsModel {
  import opened Common
  import opened Rounding

  datatype Status = Draft | Submitted | UnderReview | AwaitingInformation | ConditionallyApproved | Approved | Rejected

  predicate Editable(s: Status) {
    s == Draft || s == AwaitingInformation || s == Rejected
  }

  predicate Reviewable(s: Status) {
    s == UnderReview || s == AwaitingInformation || s == ConditionallyApproved
  }

  datatype Domain = Corporate | Regulatory | Fleet | Driving | Insurance | Safety | Operational | Mineral | Platform

  /** The document types of the shared checklist. */
  datatype Item =
    | CacIncorporation | TaxDocumentation | RepresentativeDeclaration | TransportAuthorization | MineralHaulage
    | VehicleSchedule | LeaseDeclaration | DriverSchedule | MaintenanceProcedures | CargoCustody | ContainerSeal
    | VehicleInsurance | HseDeclaration | HazardousCargo | CorridorRisk

  predicate Required(i: Item) {
    match i
    case CacIncorporation | TaxDocumentation | RepresentativeDeclaration => true
    case VehicleSchedule | DriverSchedule | MaintenanceProcedures | VehicleInsurance | HseDeclaration => true
    case _ => false
  }

  /** Domains some required document type is filed under. */
  predicate NeedsEvidence(d: Domain) {
    d == Corporate || d == Fleet || d == Driving || d == Insurance || d == Safety
  }

  /** A document type is free text; the checklist gives some of them a meaning. */
  datatype Kind = Listed(item: Item) | Other(name: string)

  datatype Verdict = Pending | Passed | Attention | Failed

  datatype Section = Section(data: map<string, string>, applicable: bool, verdict: Verdict, score: nat)

  datatype Evidence = Unreviewed | Verified | Refuted

  datatype Document = Document(
    kind: Kind, domain: Domain, scope: string, vehicle: Option<nat>, driver: Option<nat>, condition: Option<nat>,
    expires: Option<int>, version: nat, current: bool, status: Evidence)

  datatype Upload = Upload(
    kind: Kind, domain: Domain, scope: string, vehicle: Option<nat>, driver: Option<nat>, condition: Option<nat>,
    expires: Option<int>)

  datatype InquiryStatus = Open | Responded | Closed

  datatype Inquiry = Inquiry(status: InquiryStatus, responses: seq<seq<nat>>)

  datatype Condition = Condition(scope: string, cleared: bool)

  datatype Restriction = Restriction(
    scope: string, document: Option<nat>, condition: Option<nat>, automatic: bool, resolved: bool)

  datatype Vehicle = Vehicle(active: bool, insurance: Option<int>, roadworthiness: Option<int>)

  datatype Driver = Driver(active: bool, licence: int, medical: Option<int>, dedicated: Option<nat>)

  datatype Alert = Expiring | Expired

  datatype Field = InsuranceExpiry | RoadworthinessExpiry | LicenceExpiry | MedicalExpiry

  /** What makes a monitoring event unique. */
  datatype EventKey =
    | DocumentEvent(document: nat, alert: Alert)
    | AssetEvent(field: Field, asset: nat, expiry: int, alert: Alert)

  datatype OrderStatus = NewOrder | AcceptedOrder | AssignedOrder | BlockedOrder | CancelledOrder

  datatype Order = Order(service: string, status: OrderStatus)

  datatype MovementStatus = Scheduled | Assigned | Loading | InTransit | Delayed | Arrived | Delivered | Cancelled

  datatype Movement = Movement(
    order: Option<nat>, service: string, status: MovementStatus, vehicle: Option<nat>, driver: Option<nat>)

  datatype Company = Company(
    status: Status,
    sections: map<Domain, Section>,
    documents: seq<Document>,
    inquiries: seq<Inquiry>,
    conditions: seq<Condition>,
    restrictions: seq<Restriction>,
    services: seq<string>,
    contact: string,
    vehicles: seq<Vehicle>,
    drivers: seq<Driver>,
    events: set<EventKey>,
    orders: seq<Order>,
    movements: seq<Movement>)

  /** The date of a request, and whether the applicant's account is active with a verified address then. */
  datatype Now = Now(today: int, account: bool)

  const CONFLICT := "conflict"
  const STATE := "invalid_application_state"
  const INVALID := "validation_error"
  const MISSING := "not_found"

  // ---------------------------------------------------------------- text

  function LowerChar(c: char): char {
    if 'A' <= c <= 'Z' then c - 'A' + 'a' else c
  }

  function Lower(s: string): string {
    seq(|s|, i requires 0 <= i < |s| => LowerChar(s[i]))
  }

  predicate Contains(s: string, part: string) {
    part <= s || (s != "" && Contains(s[1..], part))
  }

  predicate IsMineral(services: seq<string>) {
    exists s | s in services :: Contains(Lower(s), "mineral")
  }

  // ---------------------------------------------------------------- documents

  predicate Lapsed(expires: Option<int>, today: int) {
    expires.Some? && expires.value < today
  }

  /** The current version of a kind. */
  function CurrentOf(documents: seq<Document>, kind: Kind): (found: Option<nat>)
    ensures found.Some? ==>
      found.value < |documents| && documents[found.value].current && documents[found.value].kind == kind
    ensures found == None ==> forall d | d in documents :: !(d.current && d.kind == kind)
  {
    if documents == [] then None
    else
      assert forall d | d in documents :: d in documents[..|documents| - 1] || d == documents[|documents| - 1];
      if documents[|documents| - 1].current && documents[|documents| - 1].kind == kind then Some(|documents| - 1)
      else CurrentOf(documents[..|documents| - 1], kind)
  }

  predicate SameIdentity(d: Document, u: Upload) {
    d.domain == u.domain && d.scope == u.scope && d.vehicle == u.vehicle && d.driver == u.driver
      && d.condition == u.condition
  }

  /** A new version on top of the current one, which is superseded. */
  function AddVersion(documents: seq<Document>, u: Upload): seq<Document> {
    match CurrentOf(documents, u.kind)
    case None =>
      documents
        + [Document(u.kind, u.domain, u.scope, u.vehicle, u.driver, u.condition, u.expires, 1, true, Unreviewed)]
    case Some(i) =>
      documents[i := documents[i].(current := false)]
        + [Document(u.kind, u.domain, u.scope, u.vehicle, u.driver, u.condition, u.expires,
                    documents[i].version + 1, true, Unreviewed)]
  }

  function SetVerdict(sections: map<Domain, Section>, d: Domain, verdict: Verdict): map<Domain, Section> {
    if d in sections then sections[d := sections[d].(verdict := verdict, score := 0)] else sections
  }

  // ---------------------------------------------------------------- the gates

  predicate NothingOutstanding(inquiries: seq<Inquiry>) {
    forall q | q in inquiries :: q.status == Closed
  }

  predicate NothingRefuted(documents: seq<Document>) {
    forall d | d in documents && d.current :: d.status != Refuted
  }

  predicate Supplied(documents: seq<Document>, kind: Kind, today: int) {
    exists d | d in documents :: d.kind == kind && d.current && d.status != Refuted && !Lapsed(d.expires, today)
  }

  predicate SomeApplicable(sections: map<Domain, Section>) {
    exists d | d in sections :: sections[d].applicable
  }

  predicate ApplicableFilled(sections: map<Domain, Section>) {
    forall d | d in sections && sections[d].applicable :: sections[d].data != map[]
  }

  predicate RequiredSupplied(documents: seq<Document>, today: int) {
    forall i: Item | Required(i) :: Supplied(documents, Listed(i), today)
  }

  /** Account, company, fleet, drivers, sections, documents and requests. */
  function Checks(c: Company, now: Now): seq<bool> {
    [now.account,
     c.contact != "" && c.services != [],
     exists v | v in c.vehicles :: v.active,
     exists d | d in c.drivers :: d.active,
     SomeApplicable(c.sections) && ApplicableFilled(c.sections),
     SomeApplicable(c.sections) && RequiredSupplied(c.documents, now.today),
     NothingOutstanding(c.inquiries)]
  }

  /** The refusal of an incomplete application, if any. */
  function CompletenessRefusal(c: Company, now: Now): Option<string> {
    if Percent(Checks(c, now)) != 100 then Some("application_incomplete")
    else if exists d | d in c.documents && d.current :: d.status == Refuted || Lapsed(d.expires, now.today)
      then Some("invalid_evidence")
    else None
  }

  function ApprovalRefusal(c: Company, now: Now, conditional: bool): Option<string> {
    if CompletenessRefusal(c, now).Some? then CompletenessRefusal(c, now)
    else if exists d | d in c.documents && d.current :: d.status != Verified then Some("documents_not_verified")
    else if exists d | d in c.sections && c.sections[d].applicable ::
              c.sections[d].verdict != Passed && !(conditional && c.sections[d].verdict == Attention)
      then Some("domains_not_cleared")
    else if !conditional && exists k | k in c.conditions :: !k.cleared then Some("conditions_not_cleared")
    else if !conditional && exists r | r in c.restrictions :: !r.resolved then Some("scope_restricted")
    else None
  }

  /** The application goes back to the desk once nothing waits on the applicant. */
  function Resumed(c: Company): Company {
    if c.status == AwaitingInformation && NothingOutstanding(c.inquiries) && NothingRefuted(c.documents)
    then c.(status := UnderReview) else c
  }

  // ---------------------------------------------------------------- the application

  const DOMAINS: set<Domain> :=
    {Corporate, Regulatory, Fleet, Driving, Insurance, Safety, Operational, Mineral, Platform}

  function InitialSections(services: seq<string>): map<Domain, Section> {
    map d | d in DOMAINS :: Section(map[], d != Mineral || IsMineral(services), Pending, 0)
  }

  /** A company whose application has just been created. */
  ghost predicate JustOpened(c: Company) {
    && c.status == Draft && c.sections == InitialSections(c.services)
    && c.documents == [] && c.inquiries == [] && c.conditions == [] && c.events == {} && c.orders == []
         && c.movements == []
    && forall r | r in c.restrictions :: r.document == None && r.condition == None && !r.automatic
  }

  function EditCompany(c: Company, services: seq<string>, contact: string): Result<Company> {
    if !Editable(c.status) then Refused(STATE)
    else Ok(c.(services := services, contact := contact,
               sections := if Mineral in c.sections
                 then c.sections[Mineral := c.sections[Mineral].(applicable := IsMineral(services))] else c.sections))
  }

  function SaveVehicle(c: Company, i: nat, v: Vehicle): Result<Company> {
    if i > |c.vehicles| then Refused(MISSING)
    else if !Editable(c.status) then Refused(STATE)
    else Ok(c.(vehicles := if i == |c.vehicles| then c.vehicles + [v] else c.vehicles[i := v]))
  }

  function SaveDriver(c: Company, i: nat, d: Driver): Result<Company> {
    if i > |c.drivers| then Refused(MISSING)
    else if d.dedicated.Some? && !(d.dedicated.value < |c.vehicles| && c.vehicles[d.dedicated.value].active)
      then Refused(INVALID)
    else if !Editable(c.status) then Refused(STATE)
    else Ok(c.(drivers := if i == |c.drivers| then c.drivers + [d] else c.drivers[i := d]))
  }

  function SaveSection(c: Company, d: Domain, data: map<string, string>): Result<Company> {
    if !Editable(c.status) then Refused(STATE)
    else if d !in c.sections then Refused(MISSING)
    else if data == map[] then Refused(INVALID)
    else Ok(c.(sections := c.sections[d := c.sections[d].(data := data, verdict := Pending, score := 0)]))
  }

  function StartReview(c: Company): Result<Company> {
    if c.status != Submitted then Refused(STATE) else Ok(c.(status := UnderReview))
  }

  function Submit(c: Company, now: Now): Result<Company> {
    if !Editable(c.status) then Refused(STATE)
    else match CompletenessRefusal(c, now)
      case Some(code) => Refused(code)
      case None => Ok(c.(status := Submitted))
  }

  /**
   * Why a section cannot be signed off: no data, no evidence where some is needed, or evidence that is not
   * verified and in date.
   */
  predicate SignOffGap(section: Section, d: Domain, documents: seq<Document>, today: int) {
    || section.data == map[]
    || (NeedsEvidence(d) && !exists x | x in documents :: x.current && x.domain == d)
    || exists x | x in documents && x.current && x.domain == d :: x.status != Verified || Lapsed(x.expires, today)
  }

  function ReviewSection(c: Company, now: Now, d: Domain, verdict: Verdict, score: nat, applicable: bool)
      : Result<Company> {
    if !Reviewable(c.status) then Refused(STATE)
    else if d !in c.sections then Refused(MISSING)
    else if verdict == Pending || score > 100 then Refused(INVALID)
    else if !applicable && (d != Mineral || IsMineral(c.services)) then Refused("required_domain")
    else if verdict == Passed && applicable && SignOffGap(c.sections[d], d, c.documents, now.today)
      then Refused("domain_evidence_incomplete")
    else Ok(c.(sections :=
      c.sections[d := c.sections[d].(verdict := verdict, score := score, applicable := applicable)]))
  }

  predicate ValidUpload(c: Company, u: Upload) {
    && (u.vehicle.Some? ==> u.vehicle.value < |c.vehicles|)
    && (u.driver.Some? ==> u.driver.value < |c.drivers|)
    && (u.condition.Some? ==> u.condition.value < |c.conditions| && !c.conditions[u.condition.value].cleared)
    && (u.scope == "" || u.scope in c.services)
  }

  function UploadDocument(c: Company, u: Upload): Result<Company> {
    if !ValidUpload(c, u) then Refused(INVALID)
    else
      var previous := CurrentOf(c.documents, u.kind);
      var addition := previous == None && u.kind.Listed?;
      if !addition && !(Editable(c.status) || c.status == ConditionallyApproved || c.status == Approved)
        then Refused(STATE)
      else if c.status == ConditionallyApproved && u.condition == None && !addition then Refused("condition_required")
      else if c.status == Approved && previous == None && !addition then Refused("renewal_required")
      else if previous.Some? && !SameIdentity(c.documents[previous.value], u) then Refused("document_identity_changed")
      else
        var added := c.(documents := AddVersion(c.documents, u));
        if addition && !Editable(c.status) then Ok(added)
        else Ok(added.(sections := SetVerdict(c.sections, u.domain, Pending),
                       status := if c.status == Approved then AwaitingInformation else c.status))
  }

  function Ask(c: Company): Result<Company> {
    if !Reviewable(c.status) then Refused(STATE)
    else Ok(c.(inquiries := c.inquiries + [Inquiry(Open, [])], status := AwaitingInformation))
  }

  /** A condition on a declared service restricts that service at once. */
  function AddCondition(c: Company, scope: string): Result<Company> {
    if scope != "" && scope !in c.services then Refused(CONFLICT)
    else
      var restrictions := if scope == "" then c.restrictions
                          else c.restrictions + [Restriction(scope, None, Some(|c.conditions|), false, false)];
      Ok(c.(conditions := c.conditions + [Condition(scope, false)], restrictions := restrictions))
  }

  function AddConditions(c: Company, scopes: seq<string>): Result<Company> {
    if scopes == [] then Ok(c)
    else match AddConditions(c, scopes[..|scopes| - 1])
      case Refused(code) => Refused(code)
      case Ok(so) => AddCondition(so, scopes[|scopes| - 1])
  }

  function RaiseCondition(c: Company, scope: string): Result<Company> {
    if !Reviewable(c.status) then Refused(STATE) else AddCondition(c, scope)
  }

  function Decide(c: Company, now: Now, decision: Status, scopes: seq<string>): Result<Company> {
    if c.status != UnderReview && c.status != ConditionallyApproved then Refused(STATE)
    else if decision != Approved && decision != ConditionallyApproved && decision != Rejected then Refused(INVALID)
    else if scopes != [] && decision != ConditionallyApproved then Refused(INVALID)
    else if c.status == decision then Refused(CONFLICT)
    else
      var refusal := if decision == Rejected then None else ApprovalRefusal(c, now, decision == ConditionallyApproved);
      if refusal.Some? then Refused(refusal.value)
      else match AddConditions(c, scopes)
        case Refused(code) => Refused(code)
        case Ok(added) =>
          if decision == ConditionallyApproved && forall k | k in added.conditions :: k.cleared then Refused(CONFLICT)
          else Ok(added.(status := decision))
  }

  function ReviewDocument(c: Company, now: Now, i: nat, verified: bool): Result<Company> {
    if i >= |c.documents| then Refused(MISSING)
    else if !Reviewable(c.status) then Refused(STATE)
    else
      var d := c.documents[i];
      if !d.current || d.status != Unreviewed then Refused(CONFLICT)
      else if verified && Lapsed(d.expires, now.today) then Refused(CONFLICT)
      else if verified then Ok(Resumed(c.(documents := c.documents[i := d.(status := Verified)])))
      else Ok(c.(documents := c.documents[i := d.(status := Refuted)],
                 sections := SetVerdict(c.sections, d.domain, Attention),
                 status := if c.status == ConditionallyApproved then c.status else AwaitingInformation))
  }

  // ---------------------------------------------------------------- information requests

  function Respond(c: Company, q: nat, documents: seq<nat>): Result<Company> {
    if q >= |c.inquiries| then Refused(MISSING)
    else if c.status != AwaitingInformation then Refused(STATE)
    else if c.inquiries[q].status != Open then Refused(CONFLICT)
    else if documents == []
         || exists i | i in documents ::
              i >= |c.documents| || !c.documents[i].current || c.documents[i].status == Refuted
      then Refused(CONFLICT)
    else Ok(c.(inquiries := c.inquiries[q := Inquiry(Responded, c.inquiries[q].responses + [documents])]))
  }

  predicate Convincing(documents: seq<Document>, response: seq<nat>, today: int) {
    && response != []
    && forall i | i in response ::
         i < |documents| && documents[i].current && documents[i].status == Verified
           && !Lapsed(documents[i].expires, today)
  }

  function ReviewResponse(c: Company, now: Now, q: nat, accepted: bool): Result<Company> {
    if q >= |c.inquiries| then Refused(MISSING)
    else if !Reviewable(c.status) then Refused(STATE)
    else
      var item := c.inquiries[q];
      if item.status != Responded then Refused(CONFLICT)
      else if !accepted then Ok(c.(inquiries := c.inquiries[q := item.(status := Open)]))
      else if item.responses == [] || !Convincing(c.documents, item.responses[|item.responses| - 1], now.today)
        then Refused(CONFLICT)
      else Ok(Resumed(c.(inquiries := c.inquiries[q := item.(status := Closed)])))
  }

  function Withdraw(c: Company, q: nat): Result<Company> {
    if q >= |c.inquiries| then Refused(MISSING)
    else if !Reviewable(c.status) then Refused(STATE)
    else if c.inquiries[q].status == Closed then Refused(CONFLICT)
    else Ok(Resumed(c.(inquiries := c.inquiries[q := c.inquiries[q].(status := Closed)])))
  }

  // ---------------------------------------------------------------- conditions and restrictions

  function UploadEvidence(c: Company, k: nat, kind: Kind, domain: Domain, expires: Option<int>): Result<Company> {
    if k >= |c.conditions| then Refused(MISSING)
    else if c.status != ConditionallyApproved && c.status != AwaitingInformation then Refused(STATE)
    else if c.conditions[k].cleared then Refused("condition_already_cleared")
    else
      var u := Upload(kind, domain, c.conditions[k].scope, None, None, Some(k), expires);
      var previous := CurrentOf(c.documents, kind);
      if previous.Some? && !SameIdentity(c.documents[previous.value], u) then Refused("document_identity_changed")
      else Ok(c.(documents := AddVersion(c.documents, u), sections := SetVerdict(c.sections, domain, Pending)))
  }

  function ClearCondition(c: Company, now: Now, k: nat): Result<Company> {
    if k >= |c.conditions| then Refused(MISSING)
    else if !Reviewable(c.status) then Refused(STATE)
    else if c.conditions[k].cleared
         || (!exists d | d in c.documents :: d.current && d.condition == Some(k))
         || exists d | d in c.documents && d.current && d.condition == Some(k) ::
              d.status != Verified || Lapsed(d.expires, now.today)
      then Refused(CONFLICT)
    else Ok(c.(conditions := c.conditions[k := c.conditions[k].(cleared := true)]))
  }

  function Restrict(c: Company, scope: string): Result<Company> {
    if scope !in c.services then Refused(INVALID)
    else Ok(c.(restrictions := c.restrictions + [Restriction(scope, None, None, false, false)]))
  }

  /** The current version of the kind of document `i` is verified and in date. */
  predicate Replaced(documents: seq<Document>, i: nat, today: int)
    requires i < |documents|
  {
    var current := CurrentOf(documents, documents[i].kind);
    current.Some? && documents[current.value].status == Verified && !Lapsed(documents[current.value].expires, today)
  }

  function Resolve(c: Company, now: Now, r: nat): Result<Company> {
    if r >= |c.restrictions| then Refused(MISSING)
    else
      var item := c.restrictions[r];
      if item.resolved then Refused(CONFLICT)
      else if item.condition.Some? && item.condition.value < |c.conditions|
        && !c.conditions[item.condition.value].cleared
        then Refused(CONFLICT)
      else if item.document.Some? && item.document.value < |c.documents|
        && !Replaced(c.documents, item.document.value, now.today)
        then Refused(CONFLICT)
      else Ok(c.(restrictions := c.restrictions[r := item.(resolved := true)]))
  }

  // ---------------------------------------------------------------- the expiry monitor

  const HORIZON := 30

  function AlertFor(expiry: int, today: int): Alert {
    if expiry < today then Expired else Expiring
  }

  predicate Monitored(s: Status) {
    s != Draft && s != Rejected
  }

  /** A document or asset date is worth an event from 30 days before. */
  predicate DueDate(expiry: Option<int>, today: int) {
    expiry.Some? && expiry.value - today <= HORIZON
  }

  function FieldOf(c: Company, field: Field, asset: nat): Option<int> {
    match field
    case InsuranceExpiry => if asset < |c.vehicles| && c.vehicles[asset].active then c.vehicles[asset].insurance
      else None
    case RoadworthinessExpiry => if asset < |c.vehicles| && c.vehicles[asset].active
      then c.vehicles[asset].roadworthiness else None
    case LicenceExpiry => if asset < |c.drivers| && c.drivers[asset].active then Some(c.drivers[asset].licence)
      else None
    case MedicalExpiry => if asset < |c.drivers| && c.drivers[asset].active then c.drivers[asset].medical else None
  }

  /** The events a monitoring run at `today` must leave behind. */
  predicate Due(c: Company, today: int, key: EventKey) {
    match key
    case DocumentEvent(i, alert) =>
      i < |c.documents| && c.documents[i].current && DueDate(c.documents[i].expires, today)
      && alert == AlertFor(c.documents[i].expires.value, today)
    case AssetEvent(field, asset, expiry, alert) =>
      FieldOf(c, field, asset) == Some(expiry) && DueDate(Some(expiry), today) && alert == AlertFor(expiry, today)
  }

  predicate ActiveAutomatic(restrictions: seq<Restriction>, i: nat) {
    exists r | r in restrictions :: r.document == Some(i) && r.automatic && !r.resolved
  }

  function DocumentKeys(c: Company, today: int, n: nat): set<EventKey>
    requires n <= |c.documents|
  {
    set i | n <= i < |c.documents| && c.documents[i].current && DueDate(c.documents[i].expires, today)
      :: DocumentEvent(i, AlertFor(c.documents[i].expires.value, today))
  }

  function AssetKeys(c: Company, today: int, field: Field, n: nat): set<EventKey> {
    set i | 0 <= i < n && DueDate(FieldOf(c, field, i), today)
      :: AssetEvent(field, i, FieldOf(c, field, i).value, AlertFor(FieldOf(c, field, i).value, today))
  }

  function DueKeys(c: Company, today: int): set<EventKey> {
    DocumentKeys(c, today, 0)
    + AssetKeys(c, today, InsuranceExpiry, |c.vehicles|) + AssetKeys(c, today, RoadworthinessExpiry, |c.vehicles|)
    + AssetKeys(c, today, LicenceExpiry, |c.drivers|) + AssetKeys(c, today, MedicalExpiry, |c.drivers|)
  }

  /** Whether an expired document takes its service out of operation. */
  predicate Restricts(d: Document, today: int) {
    d.current && Lapsed(d.expires, today) && d.scope != ""
  }

  /** The restrictions after the documents from `n` on were looked at, newest first. */
  function Guarded(documents: seq<Document>, restrictions: seq<Restriction>, today: int, n: nat): seq<Restriction>
    requires n <= |documents|
    decreases |documents| - n
  {
    if n == |documents| then restrictions
    else
      var so := Guarded(documents, restrictions, today, n + 1);
      if Restricts(documents[n], today) && !ActiveAutomatic(so, n)
      then so + [Restriction(documents[n].scope, Some(n), None, true, false)] else so
  }

  function Monitor(c: Company, today: int): Company {
    if !Monitored(c.status) then c
    else c.(events := c.events + DueKeys(c, today), restrictions := Guarded(c.documents, c.restrictions, today, 0))
  }

  // ---------------------------------------------------------------- transport operations

  predicate Active(s: MovementStatus) {
    s == Assigned || s == Loading || s == InTransit || s == Delayed
  }

  predicate MayFollow(s: MovementStatus, t: MovementStatus) {
    match s
    case Scheduled => t == Assigned || t == Cancelled
    case Assigned => t == Loading || t == InTransit || t == Cancelled
    case Loading => t == InTransit || t == Delayed || t == Cancelled
    case InTransit => t == Delayed || t == Arrived || t == Cancelled
    case Delayed => t == InTransit || t == Arrived || t == Cancelled
    case Arrived => t == Delivered
    case Delivered | Cancelled => false
  }

  predicate RestrictedService(restrictions: seq<Restriction>, service: string) {
    service != "" && exists r | r in restrictions :: !r.resolved && Lower(r.scope) == Lower(service)
  }

  /** The movement that already uses the vehicle, other than `m`. */
  predicate VehicleBusy(movements: seq<Movement>, v: nat, m: nat) {
    exists i | 0 <= i < |movements| :: i != m && movements[i].vehicle == Some(v) && Active(movements[i].status)
  }

  predicate DriverBusy(movements: seq<Movement>, d: nat, m: nat) {
    exists i | 0 <= i < |movements| :: i != m && movements[i].driver == Some(d) && Active(movements[i].status)
  }

  function VehicleRefusal(c: Company, today: int, v: nat, m: nat): Option<string>
    requires v < |c.vehicles|
  {
    var x := c.vehicles[v];
    if !x.active then Some("vehicle_inactive")
    else if x.insurance == None then Some("vehicle_insurance_undeclared")
    else if x.roadworthiness == None then Some("vehicle_roadworthiness_undeclared")
    else if x.insurance.value < today then Some("vehicle_insurance_expired")
    else if x.roadworthiness.value < today then Some("vehicle_roadworthiness_expired")
    else if VehicleBusy(c.movements, v, m) then Some("vehicle_unavailable")
    else None
  }

  function DriverRefusal(c: Company, today: int, d: nat, m: nat): Option<string>
    requires d < |c.drivers|
  {
    var x := c.drivers[d];
    if !x.active then Some("driver_inactive")
    else if x.licence < today then Some("driver_licence_expired")
    else if x.medical == None then Some("driver_medical_undeclared")
    else if x.medical.value < today then Some("driver_medical_expired")
    else if DriverBusy(c.movements, d, m) then Some("driver_unavailable")
    else None
  }

  function PlaceOrder(c: Company, service: string): Result<Company> {
    Ok(c.(orders := c.orders + [Order(service, NewOrder)]))
  }

  predicate HasMovement(movements: seq<Movement>, r: nat) {
    exists m | m in movements :: m.order == Some(r)
  }

  function AcceptOrder(c: Company, r: nat): Result<Company> {
    if r >= |c.orders| then Refused(MISSING)
    else if c.orders[r].status != NewOrder && c.orders[r].status != BlockedOrder
      then Refused("transport_request_not_acceptible")
    else if RestrictedService(c.restrictions, c.orders[r].service) then Refused("service_scope_restricted")
    else Ok(c.(orders := c.orders[r := c.orders[r].(status := AcceptedOrder)],
               movements := if HasMovement(c.movements, r) then c.movements
                            else c.movements + [Movement(Some(r), c.orders[r].service, Scheduled, None, None)]))
  }

  function DeclineOrder(c: Company, r: nat): Result<Company> {
    if r >= |c.orders| then Refused(MISSING)
    else if c.orders[r].status != NewOrder && c.orders[r].status != BlockedOrder
      then Refused("transport_request_not_declinable")
    else Ok(c.(orders := c.orders[r := c.orders[r].(status := CancelledOrder)]))
  }

  function Assign(c: Company, today: int, m: nat, vehicle: Option<nat>, driver: Option<nat>): Result<Company> {
    if m >= |c.movements| then Refused(MISSING)
    else if vehicle.Some? && !(vehicle.value < |c.vehicles| && c.vehicles[vehicle.value].active) then Refused(INVALID)
    else if driver.Some? && !(driver.value < |c.drivers| && c.drivers[driver.value].active) then Refused(INVALID)
    else if vehicle.Some? && driver.Some? && c.drivers[driver.value].dedicated.Some?
      && c.drivers[driver.value].dedicated != vehicle
      then Refused(CONFLICT)
    else if RestrictedService(c.restrictions, c.movements[m].service) then Refused("service_scope_restricted")
    else if vehicle.Some? && VehicleRefusal(c, today, vehicle.value, m).Some?
      then Refused(VehicleRefusal(c, today, vehicle.value, m).value)
    else if driver.Some? && DriverRefusal(c, today, driver.value, m).Some?
      then Refused(DriverRefusal(c, today, driver.value, m).value)
    else
      var x := c.movements[m];
      Ok(c.(movements := c.movements[m := x.(
        vehicle := if vehicle.Some? then vehicle else x.vehicle,
        driver := if driver.Some? then driver else x.driver,
        status := if x.status == Scheduled then Assigned else x.status)]))
  }

  function SetStatus(c: Company, m: nat, next: MovementStatus): Result<Company> {
    if m >= |c.movements| then Refused(MISSING)
    else if !MayFollow(c.movements[m].status, next) then Refused("invalid_movement_status_transition")
    else Ok(c.(movements := c.movements[m := c.movements[m].(status := next)]))
  }

  // ---------------------------------------------------------------- requests and runs

  datatype Action =
    | DoEditCompany(services: seq<string>, contact: string)
    | DoSaveVehicle(index: nat, v: Vehicle)
    | DoSaveDriver(index: nat, d: Driver)
    | DoSaveSection(domain: Domain, data: map<string, string>)
    | DoStartReview
    | DoSubmit
    | DoReviewSection(domain: Domain, verdict: Verdict, score: nat, applicable: bool)
    | DoUpload(upload: Upload)
    | DoAsk
    | DoRaiseCondition(scope: string)
    | DoDecide(decision: Status, scopes: seq<string>)
    | DoReviewDocument(document: nat, verified: bool)
    | DoRespond(inquiry: nat, documents: seq<nat>)
    | DoReviewResponse(inquiry: nat, accepted: bool)
    | DoWithdraw(inquiry: nat)
    | DoUploadEvidence(condition: nat, kind: Kind, domain: Domain, expires: Option<int>)
    | DoClearCondition(condition: nat)
    | DoRestrict(scope: string)
    | DoResolve(restriction: nat)
    | DoMonitor
    | DoPlaceOrder(service: string)
    | DoAcceptOrder(order: nat)
    | DoDeclineOrder(order: nat)
    | DoAssign(movement: nat, vehicle: Option<nat>, driver: Option<nat>)
    | DoSetStatus(movement: nat, next: MovementStatus)

  datatype Step = Step(now: Now, action: Action)

  function Answer(c: Company, now: Now, a: Action): Result<Company> {
    match a
    case DoEditCompany(services, contact) => EditCompany(c, services, contact)
    case DoSaveVehicle(i, v) => SaveVehicle(c, i, v)
    case DoSaveDriver(i, d) => SaveDriver(c, i, d)
    case DoSaveSection(d, data) => SaveSection(c, d, data)
    case DoStartReview => StartReview(c)
    case DoSubmit => Submit(c, now)
    case DoReviewSection(d, verdict, score, applicable) => ReviewSection(c, now, d, verdict, score, applicable)
    case DoUpload(u) => UploadDocument(c, u)
    case DoAsk => Ask(c)
    case DoRaiseCondition(scope) => RaiseCondition(c, scope)
    case DoDecide(decision, scopes) => Decide(c, now, decision, scopes)
    case DoReviewDocument(i, verified) => ReviewDocument(c, now, i, verified)
    case DoRespond(q, documents) => Respond(c, q, documents)
    case DoReviewResponse(q, accepted) => ReviewResponse(c, now, q, accepted)
    case DoWithdraw(q) => Withdraw(c, q)
    case DoUploadEvidence(k, kind, domain, expires) => UploadEvidence(c, k, kind, domain, expires)
    case DoClearCondition(k) => ClearCondition(c, now, k)
    case DoRestrict(scope) => Restrict(c, scope)
    case DoResolve(r) => Resolve(c, now, r)
    case DoMonitor => Ok(Monitor(c, now.today))
    case DoPlaceOrder(service) => PlaceOrder(c, service)
    case DoAcceptOrder(r) => AcceptOrder(c, r)
    case DoDeclineOrder(r) => DeclineOrder(c, r)
    case DoAssign(m, vehicle, driver) => Assign(c, now.today, m, vehicle, driver)
    case DoSetStatus(m, next) => SetStatus(c, m, next)
  }

  /** A refused request changes nothing. */
  function After(c: Company, s: Step): Company {
    match Answer(c, s.now, s.action)
    case Ok(c') => c'
    case Refused(_) => c
  }

  function Run(c: Company, steps: seq<Step>): Company {
    if steps == [] then c else After(Run(c, steps[..|steps| - 1]), steps[|steps| - 1])
  }

  /** The calendar never goes back. */
  ghost predicate InOrder(steps: seq<Step>) {
    forall i, j | 0 <= i < j < |steps| :: steps[i].now.today <= steps[j].now.today
  }
}
