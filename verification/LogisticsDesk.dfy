/** The view actions and services of logistics/ as methods that update one company's records in place. */
module LogisticsDesk {
  import opened Common
  import opened LogisticsModel
  import opened LogisticsTheorems

  function ReplyOf(r: Result<Company>): Result<()> {
    match r
    case Ok(_) => Ok(())
    case Refused(code) => Refused(code)
  }

  function Left(r: Result<Company>, before: Company): Company {
    match r
    case Ok(c) => c
    case Refused(_) => before
  }

  // ---------------------------------------------------------------- the history of a file

  ghost predicate Recorded(start: Company, steps: seq<Step>, c: Company) {
    JustOpened(start) && InOrder(steps) && c == Run(start, steps)
  }

  ghost predicate NoneAfter(steps: seq<Step>, today: int) {
    steps != [] ==> steps[|steps| - 1].now.today <= today
  }

  lemma RecordNext(start: Company, steps: seq<Step>, c: Company, s: Step)
    requires Recorded(start, steps, c) && NoneAfter(steps, s.now.today)
    ensures Recorded(start, steps + [s], After(c, s)) && NoneAfter(steps + [s], s.now.today)
  {
    assert (steps + [s])[..|steps|] == steps;
  }

  lemma LeftIsAfter(c: Company, s: Step)
    ensures Left(Answer(c, s.now, s.action), c) == After(c, s)
  {
  }

  lemma RecordMonitor(start: Company, steps: seq<Step>, c: Company, today: int)
    requires Recorded(start, steps, c) && NoneAfter(steps, today)
    ensures var more := steps + [Step(Now(today, false), DoMonitor)];
      Recorded(start, more, LogisticsModel.Monitor(c, today)) && NoneAfter(more, today)
  {
    RecordNext(start, steps, c, Step(Now(today, false), DoMonitor));
  }

  // ---------------------------------------------------------------- a decision after its checks

  function Concluded(c: Company, decision: Status, scopes: seq<string>): Result<Company> {
    match AddConditions(c, scopes)
    case Refused(code) => Refused(code)
    case Ok(added) =>
      if decision == ConditionallyApproved && forall k | k in added.conditions :: k.cleared then Refused(CONFLICT)
      else Ok(added.(status := decision))
  }

  // ---------------------------------------------------------------- who asks for what

  predicate Applicants(a: Action) {
    || a.DoEditCompany? || a.DoSaveVehicle? || a.DoSaveDriver? || a.DoSaveSection? || a.DoSubmit? || a.DoUpload?
    || a.DoRespond? || a.DoUploadEvidence?
  }

  predicate Desks(a: Action) {
    || a.DoStartReview? || a.DoReviewSection? || a.DoAsk? || a.DoRaiseCondition? || a.DoDecide? || a.DoReviewDocument?
    || a.DoReviewResponse? || a.DoWithdraw? || a.DoClearCondition?
  }

  predicate Restraints(a: Action) {
    a.DoRestrict? || a.DoResolve? || a.DoMonitor?
  }

  // ---------------------------------------------------------------- the monitor's loops, as functions

  /** The event one date of one vehicle or driver is due, if any. */
  function KeyFor(field: Field, asset: nat, expiry: Option<int>, today: int): set<EventKey> {
    if DueDate(expiry, today) then {AssetEvent(field, asset, expiry.value, AlertFor(expiry.value, today))} else {}
  }

  function KeyOf(d: Document, i: nat, today: int): set<EventKey> {
    if d.current && DueDate(d.expires, today) then {DocumentEvent(i, AlertFor(d.expires.value, today))} else {}
  }

  /** The events once documents `n` and later were looked at. */
  ghost function DocumentsSeen(c: Company, today: int, n: nat): set<EventKey>
    requires n <= |c.documents|
    decreases |c.documents| - n
  {
    if n == |c.documents| then c.events else DocumentsSeen(c, today, n + 1) + KeyOf(c.documents[n], n, today)
  }

  lemma {:induction false} DocumentsSeenAre(c: Company, today: int, n: nat)
    requires n <= |c.documents|
    ensures DocumentsSeen(c, today, n) == c.events + DocumentKeys(c, today, n)
    decreases |c.documents| - n
  {
    if n < |c.documents| {
      DocumentsSeenAre(c, today, n + 1);
      assert DocumentKeys(c, today, n) == DocumentKeys(c, today, n + 1) + KeyOf(c.documents[n], n, today);
    }
  }

  function VehicleKeys(v: Vehicle, i: nat, today: int): set<EventKey> {
    if v.active
    then KeyFor(InsuranceExpiry, i, v.insurance, today) + KeyFor(RoadworthinessExpiry, i, v.roadworthiness, today)
    else {}
  }

  function DriverKeys(d: Driver, i: nat, today: int): set<EventKey> {
    if d.active
    then KeyFor(LicenceExpiry, i, Some(d.licence), today) + KeyFor(MedicalExpiry, i, d.medical, today)
    else {}
  }

  /** The events once the first `n` vehicles were looked at. */
  ghost function VehiclesSeen(events: set<EventKey>, vehicles: seq<Vehicle>, today: int, n: nat): set<EventKey>
    requires n <= |vehicles|
  {
    if n == 0 then events else VehiclesSeen(events, vehicles, today, n - 1) + VehicleKeys(vehicles[n - 1], n - 1, today)
  }

  ghost function DriversSeen(events: set<EventKey>, drivers: seq<Driver>, today: int, n: nat): set<EventKey>
    requires n <= |drivers|
  {
    if n == 0 then events else DriversSeen(events, drivers, today, n - 1) + DriverKeys(drivers[n - 1], n - 1, today)
  }

  lemma AssetKeysNext(c: Company, today: int, field: Field, n: nat)
    ensures AssetKeys(c, today, field, n + 1) == AssetKeys(c, today, field, n)
      + KeyFor(field, n, FieldOf(c, field, n), today)
  {
  }

  lemma {:induction false} VehiclesSeenAre(c: Company, events: set<EventKey>, today: int, n: nat)
    requires n <= |c.vehicles|
    ensures VehiclesSeen(events, c.vehicles, today, n)
      == events + (AssetKeys(c, today, InsuranceExpiry, n) + AssetKeys(c, today, RoadworthinessExpiry, n))
  {
    if n > 0 {
      VehiclesSeenAre(c, events, today, n - 1);
      AssetKeysNext(c, today, InsuranceExpiry, n - 1);
      AssetKeysNext(c, today, RoadworthinessExpiry, n - 1);
    }
  }

  lemma {:induction false} DriversSeenAre(c: Company, events: set<EventKey>, today: int, n: nat)
    requires n <= |c.drivers|
    ensures DriversSeen(events, c.drivers, today, n)
      == events + (AssetKeys(c, today, LicenceExpiry, n) + AssetKeys(c, today, MedicalExpiry, n))
  {
    if n > 0 {
      DriversSeenAre(c, events, today, n - 1);
      AssetKeysNext(c, today, LicenceExpiry, n - 1);
      AssetKeysNext(c, today, MedicalExpiry, n - 1);
    }
  }

  lemma Regroup<T>(e: set<T>, d: set<T>, v: set<T>, w: set<T>, x: set<T>, y: set<T>)
    ensures ((e + d) + (v + w)) + (x + y) == e + (d + v + w + x + y)
  {
  }

  /** Documents, then vehicles, then drivers: together the events that are due. */
  lemma AllSeen(c: Company, today: int)
    ensures var documents := DocumentsSeen(c, today, 0);
      var vehicles := VehiclesSeen(documents, c.vehicles, today, |c.vehicles|);
      DriversSeen(vehicles, c.drivers, today, |c.drivers|) == c.events + DueKeys(c, today)
  {
    var documents := DocumentsSeen(c, today, 0);
    var vehicles := VehiclesSeen(documents, c.vehicles, today, |c.vehicles|);
    DocumentsSeenAre(c, today, 0);
    VehiclesSeenAre(c, documents, today, |c.vehicles|);
    DriversSeenAre(c, vehicles, today, |c.drivers|);
    Regroup(c.events, DocumentKeys(c, today, 0), AssetKeys(c, today, InsuranceExpiry, |c.vehicles|),
      AssetKeys(c, today, RoadworthinessExpiry, |c.vehicles|), AssetKeys(c, today, LicenceExpiry, |c.drivers|),
      AssetKeys(c, today, MedicalExpiry, |c.drivers|));
  }

  class CompanyFile {
    var status: Status
    var sections: map<Domain, Section>
    var documents: seq<Document>
    var inquiries: seq<Inquiry>
    var conditions: seq<Condition>
    var restrictions: seq<Restriction>
    var services: seq<string>
    var contact: string
    var vehicles: seq<Vehicle>
    var drivers: seq<Driver>
    var events: set<EventKey>
    var orders: seq<Order>
    var movements: seq<Movement>
    ghost var start: Company
    ghost var steps: seq<Step>

    function Contents(): Company
      reads this
    {
      Company(status, sections, documents, inquiries, conditions, restrictions, services, contact, vehicles, drivers,
              events, orders, movements)
    }

    /** The file holds what its history of requests leaves. */
    ghost predicate Valid()
      reads this
    {
      Recorded(start, steps, Contents())
    }

    /** No request so far is later than this day. */
    ghost predicate HandledBy(today: int)
      reads this
    {
      NoneAfter(steps, today)
    }

    /** A company whose application is created now. */
    constructor (services: seq<string>, contact: string, vehicles: seq<Vehicle>, drivers: seq<Driver>)
      ensures Valid() && steps == [] && JustOpened(Contents())
      ensures this.services == services && this.contact == contact && this.vehicles == vehicles
        && this.drivers == drivers
    {
      this.services, this.contact, this.vehicles, this.drivers := services, contact, vehicles, drivers;
      status, sections, events := Draft, InitialSections(services), {};
      documents, inquiries, conditions, restrictions, orders, movements := [], [], [], [], [], [];
      start := Company(
        Draft, InitialSections(services), [], [], [], [], services, contact, vehicles, drivers, {}, [], []);
      steps := [];
    }

    /** Whatever requests the file has handled, the theorems about reachable companies hold of it. */
    lemma IsReachable(today: int)
      requires Valid() && HandledBy(today)
      ensures Reachable(Contents(), today)
    {
      assert Reaches(start, steps, Contents(), today);
    }

    // -------------------------------------------------------------- one request

    /** Every request is answered as the machine answers it, and is added to the history of the file. */
    method Handle(now: Now, action: Action) returns (reply: Result<()>)
      requires Valid() && HandledBy(now.today)
      modifies this
      ensures Valid() && HandledBy(now.today) && start == old(start) && steps == old(steps) + [Step(now, action)]
      ensures reply == ReplyOf(Answer(old(Contents()), now, action))
      ensures Contents() == After(old(Contents()), Step(now, action))
    {
      ghost var before, s := Contents(), Step(now, action);
      reply := Dispatch(now, action);
      LeftIsAfter(before, s);
      RecordNext(start, steps, before, s);
      steps := steps + [s];
    }

    method Dispatch(now: Now, action: Action) returns (reply: Result<()>)
      modifies `status, `sections, `documents, `inquiries, `conditions, `restrictions, `services, `contact, `vehicles,
        `drivers, `events, `orders, `movements
      ensures var r := Answer(old(Contents()), now, action);
        reply == ReplyOf(r) && Contents() == Left(r, old(Contents()))
    {
      if Applicants(action) {
        reply := DispatchApplicant(now, action);
      } else if Desks(action) {
        reply := DispatchDesk(now, action);
      } else if Restraints(action) {
        reply := DispatchRestraint(now, action);
      } else {
        reply := DispatchTransport(now, action);
      }
    }

    method DispatchApplicant(now: Now, action: Action) returns (reply: Result<()>)
      requires Applicants(action)
      modifies `status, `sections, `documents, `inquiries, `services, `contact, `vehicles, `drivers
      ensures var r := Answer(old(Contents()), now, action);
        reply == ReplyOf(r) && Contents() == Left(r, old(Contents()))
    {
      match action
      case DoEditCompany(services, contact) => reply := EditCompany(services, contact);
      case DoSaveVehicle(i, v) => reply := SaveVehicle(i, v);
      case DoSaveDriver(i, d) => reply := SaveDriver(i, d);
      case DoSaveSection(key, data) => reply := SaveSection(key, data);
      case DoSubmit => reply := Submit(now);
      case DoUpload(u) => reply := UploadDocument(u);
      case DoRespond(q, response) => reply := Respond(q, response);
      case DoUploadEvidence(k, kind, key, expires) => reply := UploadEvidence(k, kind, key, expires);
    }

    method DispatchDesk(now: Now, action: Action) returns (reply: Result<()>)
      requires Desks(action)
      modifies `status, `sections, `documents, `inquiries, `conditions, `restrictions
      ensures var r := Answer(old(Contents()), now, action);
        reply == ReplyOf(r) && Contents() == Left(r, old(Contents()))
    {
      match action
      case DoStartReview => reply := StartReview();
      case DoReviewSection(key, verdict, score, applicable) =>
        reply := ReviewSection(now, key, verdict, score, applicable);
      case DoAsk => reply := Ask();
      case DoRaiseCondition(scope) => reply := RaiseCondition(scope);
      case DoDecide(decision, scopes) => reply := Decide(now, decision, scopes);
      case DoReviewDocument(i, verified) => reply := ReviewDocument(now, i, verified);
      case DoReviewResponse(q, accepted) => reply := ReviewResponse(now, q, accepted);
      case DoWithdraw(q) => reply := Withdraw(q);
      case DoClearCondition(k) => reply := ClearCondition(now, k);
    }

    method DispatchRestraint(now: Now, action: Action) returns (reply: Result<()>)
      requires Restraints(action)
      modifies `restrictions, `events
      ensures var r := Answer(old(Contents()), now, action);
        reply == ReplyOf(r) && Contents() == Left(r, old(Contents()))
    {
      match action
      case DoRestrict(scope) => reply := Restrict(scope);
      case DoResolve(r) => reply := Resolve(now, r);
      case DoMonitor =>
        var created := Monitor(now.today);
        reply := Ok(());
    }

    method DispatchTransport(now: Now, action: Action) returns (reply: Result<()>)
      requires !Applicants(action) && !Desks(action) && !Restraints(action)
      modifies `orders, `movements
      ensures var r := Answer(old(Contents()), now, action);
        reply == ReplyOf(r) && Contents() == Left(r, old(Contents()))
    {
      match action
      case DoPlaceOrder(service) =>
        PlaceOrder(service);
        reply := Ok(());
      case DoAcceptOrder(r) => reply := AcceptOrder(r);
      case DoDeclineOrder(r) => reply := DeclineOrder(r);
      case DoAssign(m, vehicle, driver) => reply := Assign(now.today, m, vehicle, driver);
      case DoSetStatus(m, next) => reply := SetStatus(m, next);
    }

    // -------------------------------------------------------------- the applicant

    method EditCompany(services: seq<string>, contact: string) returns (reply: Result<()>)
      modifies `services, `contact, `sections
      ensures var r := LogisticsModel.EditCompany(old(Contents()), services, contact);
        reply == ReplyOf(r) && Contents() == Left(r, old(Contents()))
    {
      if !Editable(status) {
        return Refused(STATE);
      }
      this.services, this.contact := services, contact;
      if Mineral in sections {
        sections := sections[Mineral := sections[Mineral].(applicable := IsMineral(services))];
      }
      reply := Ok(());
    }

    method SaveVehicle(i: nat, v: Vehicle) returns (reply: Result<()>)
      modifies `vehicles
      ensures var r := LogisticsModel.SaveVehicle(old(Contents()), i, v);
        reply == ReplyOf(r) && Contents() == Left(r, old(Contents()))
    {
      if i > |vehicles| {
        return Refused(MISSING);
      }
      if !Editable(status) {
        return Refused(STATE);
      }
      vehicles := if i == |vehicles| then vehicles + [v] else vehicles[i := v];
      reply := Ok(());
    }

    method SaveDriver(i: nat, d: Driver) returns (reply: Result<()>)
      modifies `drivers
      ensures var r := LogisticsModel.SaveDriver(old(Contents()), i, d);
        reply == ReplyOf(r) && Contents() == Left(r, old(Contents()))
    {
      if i > |drivers| {
        return Refused(MISSING);
      }
      if d.dedicated.Some? && !(d.dedicated.value < |vehicles| && vehicles[d.dedicated.value].active) {
        return Refused(INVALID);
      }
      if !Editable(status) {
        return Refused(STATE);
      }
      drivers := if i == |drivers| then drivers + [d] else drivers[i := d];
      reply := Ok(());
    }

    method SaveSection(key: Domain, data: map<string, string>) returns (reply: Result<()>)
      modifies `sections
      ensures var r := LogisticsModel.SaveSection(old(Contents()), key, data);
        reply == ReplyOf(r) && Contents() == Left(r, old(Contents()))
    {
      if !Editable(status) {
        return Refused(STATE);
      }
      if key !in sections {
        return Refused(MISSING);
      }
      if data == map[] {
        return Refused(INVALID);
      }
      var section := sections[key];
      section := section.(data := data);
      section := section.(verdict := Pending, score := 0);
      sections := sections[key := section];
      reply := Ok(());
    }

    method Submit(now: Now) returns (reply: Result<()>)
      modifies `status
      ensures var r := LogisticsModel.Submit(old(Contents()), now);
        reply == ReplyOf(r) && Contents() == Left(r, old(Contents()))
    {
      if !Editable(status) {
        return Refused(STATE);
      }
      var refusal := CompletenessRefusal(Contents(), now);
      if refusal.Some? {
        return Refused(refusal.value);
      }
      status := Submitted;
      reply := Ok(());
    }

    /** Supersedes the current version of the kind, if there is one, and adds the next. */
    method AddDocument(u: Upload)
      modifies `documents
      ensures documents == AddVersion(old(documents), u)
    {
      var previous := CurrentOf(documents, u.kind);
      var version := 1;
      if previous.Some? {
        version := documents[previous.value].version + 1;
        documents := documents[previous.value := documents[previous.value].(current := false)];
      }
      documents := documents
        + [Document(u.kind, u.domain, u.scope, u.vehicle, u.driver, u.condition, u.expires, version, true, Unreviewed)];
    }

    method ResetSection(key: Domain, verdict: Verdict)
      modifies `sections
      ensures sections == SetVerdict(old(sections), key, verdict)
    {
      if key in sections {
        sections := sections[key := sections[key].(verdict := verdict, score := 0)];
      }
    }

    method UploadDocument(u: Upload) returns (reply: Result<()>)
      modifies `documents, `sections, `status
      ensures var r := LogisticsModel.UploadDocument(old(Contents()), u);
        reply == ReplyOf(r) && Contents() == Left(r, old(Contents()))
    {
      if !ValidUpload(Contents(), u) {
        return Refused(INVALID);
      }
      var previous := CurrentOf(documents, u.kind);
      var addition := previous == None && u.kind.Listed?;
      if !addition && !(Editable(status) || status == ConditionallyApproved || status == Approved) {
        return Refused(STATE);
      }
      if status == ConditionallyApproved && u.condition == None && !addition {
        return Refused("condition_required");
      }
      if status == Approved && previous == None && !addition {
        return Refused("renewal_required");
      }
      if previous.Some? && !SameIdentity(documents[previous.value], u) {
        return Refused("document_identity_changed");
      }
      AddDocument(u);
      if !addition || Editable(status) {
        ResetSection(u.domain, Pending);
        if status == Approved {
          status := AwaitingInformation;
        }
      }
      reply := Ok(());
    }

    method UploadEvidence(k: nat, kind: Kind, domain: Domain, expires: Option<int>) returns (reply: Result<()>)
      modifies `documents, `sections
      ensures var r := LogisticsModel.UploadEvidence(old(Contents()), k, kind, domain, expires);
        reply == ReplyOf(r) && Contents() == Left(r, old(Contents()))
    {
      if k >= |conditions| {
        return Refused(MISSING);
      }
      if status != ConditionallyApproved && status != AwaitingInformation {
        return Refused(STATE);
      }
      if conditions[k].cleared {
        return Refused("condition_already_cleared");
      }
      var u := Upload(kind, domain, conditions[k].scope, None, None, Some(k), expires);
      var previous := CurrentOf(documents, kind);
      if previous.Some? && !SameIdentity(documents[previous.value], u) {
        return Refused("document_identity_changed");
      }
      AddDocument(u);
      ResetSection(domain, Pending);
      reply := Ok(());
    }

    method Respond(q: nat, response: seq<nat>) returns (reply: Result<()>)
      modifies `inquiries
      ensures var r := LogisticsModel.Respond(old(Contents()), q, response);
        reply == ReplyOf(r) && Contents() == Left(r, old(Contents()))
    {
      if q >= |inquiries| {
        return Refused(MISSING);
      }
      if status != AwaitingInformation {
        return Refused(STATE);
      }
      if inquiries[q].status != Open {
        return Refused(CONFLICT);
      }
      if response == [] {
        return Refused(CONFLICT);
      }
      var j := 0;
      while j < |response|
        invariant j <= |response|
        invariant forall i | i in response[..j] ::
          i < |documents| && documents[i].current && documents[i].status != Refuted
      {
        var i := response[j];
        if i >= |documents| || !documents[i].current || documents[i].status == Refuted {
          assert i in response;
          return Refused(CONFLICT);
        }
        assert response[..j + 1] == response[..j] + [i];
        j := j + 1;
      }
      assert response[..j] == response;
      inquiries := inquiries[q := Inquiry(Responded, inquiries[q].responses + [response])];
      reply := Ok(());
    }

    // -------------------------------------------------------------- the desk

    method StartReview() returns (reply: Result<()>)
      modifies `status
      ensures var r := LogisticsModel.StartReview(old(Contents()));
        reply == ReplyOf(r) && Contents() == Left(r, old(Contents()))
    {
      if status != Submitted {
        return Refused(STATE);
      }
      status := UnderReview;
      reply := Ok(());
    }

    method LacksEvidence(section: Section, key: Domain, today: int) returns (gap: bool)
      ensures gap == SignOffGap(section, key, documents, today)
    {
      var needsEvidence := NeedsEvidence(key) && !exists d | d in documents :: d.current && d.domain == key;
      var unverified := exists d | d in documents && d.current && d.domain == key :: d.status != Verified;
      var lapsed := exists d | d in documents && d.current && d.domain == key :: Lapsed(d.expires, today);
      gap := section.data == map[] || needsEvidence || unverified || lapsed;
    }

    method ReviewSection(now: Now, key: Domain, verdict: Verdict, score: nat, applicable: bool)
        returns (reply: Result<()>)
      modifies `sections
      ensures var r := LogisticsModel.ReviewSection(old(Contents()), now, key, verdict, score, applicable);
        reply == ReplyOf(r) && Contents() == Left(r, old(Contents()))
    {
      if !Reviewable(status) {
        return Refused(STATE);
      }
      if key !in sections {
        return Refused(MISSING);
      }
      if verdict == Pending || score > 100 {
        return Refused(INVALID);
      }
      if !applicable && key != Mineral {
        return Refused("required_domain");
      }
      if !applicable && IsMineral(services) {
        return Refused("required_domain");
      }
      var section := sections[key];
      if verdict == Passed && applicable {
        var gap := LacksEvidence(section, key, now.today);
        if gap {
          return Refused("domain_evidence_incomplete");
        }
      }
      section := section.(verdict := verdict, score := score, applicable := applicable);
      sections := sections[key := section];
      reply := Ok(());
    }

    method Ask() returns (reply: Result<()>)
      modifies `inquiries, `status
      ensures var r := LogisticsModel.Ask(old(Contents()));
        reply == ReplyOf(r) && Contents() == Left(r, old(Contents()))
    {
      if !Reviewable(status) {
        return Refused(STATE);
      }
      inquiries := inquiries + [Inquiry(Open, [])];
      status := AwaitingInformation;
      reply := Ok(());
    }

    method AddCondition(scope: string) returns (reply: Result<()>)
      modifies `conditions, `restrictions
      ensures var r := LogisticsModel.AddCondition(old(Contents()), scope);
        reply == ReplyOf(r) && Contents() == Left(r, old(Contents()))
    {
      if scope != "" && scope !in services {
        return Refused(CONFLICT);
      }
      conditions := conditions + [Condition(scope, false)];
      if scope != "" {
        restrictions := restrictions + [Restriction(scope, None, Some(|conditions| - 1), false, false)];
      }
      reply := Ok(());
    }

    method RaiseCondition(scope: string) returns (reply: Result<()>)
      modifies `conditions, `restrictions
      ensures var r := LogisticsModel.RaiseCondition(old(Contents()), scope);
        reply == ReplyOf(r) && Contents() == Left(r, old(Contents()))
    {
      if !Reviewable(status) {
        return Refused(STATE);
      }
      reply := AddCondition(scope);
    }

    /**
     * Conditions are written before the last refusal is known; the transaction around the
     * request puts the old records back.
     */
    method Decide(now: Now, decision: Status, scopes: seq<string>) returns (reply: Result<()>)
      modifies `status, `conditions, `restrictions
      ensures var r := LogisticsModel.Decide(old(Contents()), now, decision, scopes);
        reply == ReplyOf(r) && Contents() == Left(r, old(Contents()))
    {
      if status != UnderReview && status != ConditionallyApproved {
        return Refused(STATE);
      }
      if decision != Approved && decision != ConditionallyApproved && decision != Rejected {
        return Refused(INVALID);
      }
      if scopes != [] && decision != ConditionallyApproved {
        return Refused(INVALID);
      }
      if status == decision {
        return Refused(CONFLICT);
      }
      var conditional := decision == ConditionallyApproved;
      if decision != Rejected {
        var refusal := ApprovalRefusal(Contents(), now, conditional);
        if refusal.Some? {
          return Refused(refusal.value);
        }
      }
      reply := Conclude(decision, scopes);
    }

    /** Adds the conditions of a decision that has passed its checks, and takes it unless none is left to clear. */
    method Conclude(decision: Status, scopes: seq<string>) returns (reply: Result<()>)
      modifies `status, `conditions, `restrictions
      ensures var r := Concluded(old(Contents()), decision, scopes);
        reply == ReplyOf(r) && Contents() == Left(r, old(Contents()))
    {
      var conditional := decision == ConditionallyApproved;
      var oldConditions, oldRestrictions := conditions, restrictions;
      reply := AddAll(scopes);
      if reply.Ok? && conditional && forall k | k in conditions :: k.cleared {
        reply := Refused(CONFLICT);
      }
      if reply.Ok? {
        status := decision;
      } else {
        conditions, restrictions := oldConditions, oldRestrictions;
      }
    }

    method AddAll(scopes: seq<string>) returns (reply: Result<()>)
      modifies `conditions, `restrictions
      ensures reply == ReplyOf(AddConditions(old(Contents()), scopes))
      ensures reply.Ok? ==> Contents() == AddConditions(old(Contents()), scopes).value
    {
      var i := 0;
      reply := Ok(());
      assert scopes[..0] == [];
      while i < |scopes|
        invariant i <= |scopes| && reply == Ok(())
        invariant AddConditions(old(Contents()), scopes[..i]) == Ok(Contents())
      {
        assert scopes[..i + 1][..i] == scopes[..i];
        reply := AddCondition(scopes[i]);
        if reply.Refused? {
          RefusalSticks(old(Contents()), scopes, i + 1);
          return;
        }
        i := i + 1;
      }
      assert scopes[..i] == scopes;
    }

    static lemma {:induction false} RefusalSticks(c: Company, scopes: seq<string>, n: nat)
      requires n <= |scopes| && AddConditions(c, scopes[..n]).Refused?
      ensures AddConditions(c, scopes) == AddConditions(c, scopes[..n])
    {
      if n == |scopes| {
        assert scopes[..n] == scopes;
      } else {
        var init := scopes[..|scopes| - 1];
        assert init[..n] == scopes[..n];
        RefusalSticks(c, init, n);
      }
    }

    /** Back to the desk once nothing waits on the applicant. */
    method ResumeReview()
      modifies `status
      ensures Contents() == Resumed(old(Contents()))
    {
      if status != AwaitingInformation {
        return;
      }
      if exists q | q in inquiries :: q.status != Closed {
        return;
      }
      if exists d | d in documents :: d.current && d.status == Refuted {
        return;
      }
      status := UnderReview;
    }

    method ReviewDocument(now: Now, i: nat, verified: bool) returns (reply: Result<()>)
      modifies `documents, `sections, `status
      ensures var r := LogisticsModel.ReviewDocument(old(Contents()), now, i, verified);
        reply == ReplyOf(r) && Contents() == Left(r, old(Contents()))
    {
      if i >= |documents| {
        return Refused(MISSING);
      }
      if !Reviewable(status) {
        return Refused(STATE);
      }
      var document := documents[i];
      if !document.current || document.status != Unreviewed {
        return Refused(CONFLICT);
      }
      if verified && Lapsed(document.expires, now.today) {
        return Refused(CONFLICT);
      }
      document := document.(status := if verified then Verified else Refuted);
      documents := documents[i := document];
      if document.status == Refuted {
        ResetSection(document.domain, Attention);
        if status != ConditionallyApproved {
          status := AwaitingInformation;
        }
      } else {
        ResumeReview();
      }
      reply := Ok(());
    }

    method ReviewResponse(now: Now, q: nat, accepted: bool) returns (reply: Result<()>)
      modifies `inquiries, `status
      ensures var r := LogisticsModel.ReviewResponse(old(Contents()), now, q, accepted);
        reply == ReplyOf(r) && Contents() == Left(r, old(Contents()))
    {
      if q >= |inquiries| {
        return Refused(MISSING);
      }
      if !Reviewable(status) {
        return Refused(STATE);
      }
      var item := inquiries[q];
      if item.status != Responded {
        return Refused(CONFLICT);
      }
      if accepted {
        if item.responses == [] || !Convincing(documents, item.responses[|item.responses| - 1], now.today) {
          return Refused(CONFLICT);
        }
      }
      item := item.(status := if accepted then Closed else Open);
      inquiries := inquiries[q := item];
      if item.status == Closed {
        ResumeReview();
      }
      reply := Ok(());
    }

    method Withdraw(q: nat) returns (reply: Result<()>)
      modifies `inquiries, `status
      ensures var r := LogisticsModel.Withdraw(old(Contents()), q);
        reply == ReplyOf(r) && Contents() == Left(r, old(Contents()))
    {
      if q >= |inquiries| {
        return Refused(MISSING);
      }
      if !Reviewable(status) {
        return Refused(STATE);
      }
      if inquiries[q].status == Closed {
        return Refused(CONFLICT);
      }
      inquiries := inquiries[q := inquiries[q].(status := Closed)];
      ResumeReview();
      reply := Ok(());
    }

    method ClearCondition(now: Now, k: nat) returns (reply: Result<()>)
      modifies `conditions
      ensures var r := LogisticsModel.ClearCondition(old(Contents()), now, k);
        reply == ReplyOf(r) && Contents() == Left(r, old(Contents()))
    {
      if k >= |conditions| {
        return Refused(MISSING);
      }
      if !Reviewable(status) {
        return Refused(STATE);
      }
      var answered := exists d | d in documents :: d.current && d.condition == Some(k);
      var unverified := exists d | d in documents && d.current && d.condition == Some(k) :: d.status != Verified;
      var lapsed := exists d | d in documents && d.current && d.condition == Some(k) :: Lapsed(d.expires, now.today);
      if conditions[k].cleared || !answered || unverified || lapsed {
        return Refused(CONFLICT);
      }
      conditions := conditions[k := conditions[k].(cleared := true)];
      reply := Ok(());
    }

    method Restrict(scope: string) returns (reply: Result<()>)
      modifies `restrictions
      ensures var r := LogisticsModel.Restrict(old(Contents()), scope);
        reply == ReplyOf(r) && Contents() == Left(r, old(Contents()))
    {
      if scope !in services {
        return Refused(INVALID);
      }
      restrictions := restrictions + [Restriction(scope, None, None, false, false)];
      reply := Ok(());
    }

    method Resolve(now: Now, r: nat) returns (reply: Result<()>)
      modifies `restrictions
      ensures var x := LogisticsModel.Resolve(old(Contents()), now, r);
        reply == ReplyOf(x) && Contents() == Left(x, old(Contents()))
    {
      if r >= |restrictions| {
        return Refused(MISSING);
      }
      var restriction := restrictions[r];
      if restriction.resolved {
        return Refused(CONFLICT);
      }
      if restriction.condition.Some? && restriction.condition.value < |conditions|
          && !conditions[restriction.condition.value].cleared {
        return Refused(CONFLICT);
      }
      if restriction.document.Some? && restriction.document.value < |documents| {
        var current := CurrentOf(documents, documents[restriction.document.value].kind);
        if current == None || documents[current.value].status != Verified
            || Lapsed(documents[current.value].expires, now.today) {
          return Refused(CONFLICT);
        }
      }
      restrictions := restrictions[r := restriction.(resolved := true)];
      reply := Ok(());
    }

    // -------------------------------------------------------------- the monitor

    method CredentialEvent(key: EventKey) returns (created: bool)
      modifies `events
      ensures events == old(events) + {key} && created == (key !in old(events))
      ensures |events| == |old(events)| + if created then 1 else 0
    {
      created := key !in events;
      if created {
        events := events + {key};
      } else {
        assert events + {key} == events;
      }
    }

    method CheckDate(field: Field, asset: nat, expiry: Option<int>, today: int) returns (created: nat)
      modifies `events
      ensures events == old(events) + KeyFor(field, asset, expiry, today)
      ensures |events| == |old(events)| + created
    {
      created := 0;
      if expiry.Some? && expiry.value - today <= HORIZON {
        var isNew := CredentialEvent(AssetEvent(field, asset, expiry.value, AlertFor(expiry.value, today)));
        created := if isNew then 1 else 0;
      }
    }

    /** One document: the event it is due, and the restriction of its service once it has lapsed. */
    method MonitorDocument(i: nat, today: int) returns (created: nat)
      requires i < |documents|
      modifies `events, `restrictions
      ensures events == old(events) + KeyOf(documents[i], i, today)
      ensures restrictions == if Restricts(documents[i], today) && !ActiveAutomatic(old(restrictions), i)
        then old(restrictions) + [Restriction(documents[i].scope, Some(i), None, true, false)] else old(restrictions)
      ensures |events| == |old(events)| + created
    {
      created := 0;
      var document := documents[i];
      if document.current && document.expires.Some? {
        var days := document.expires.value - today;
        if days <= HORIZON {
          var alert := if days < 0 then Expired else Expiring;
          var isNew := CredentialEvent(DocumentEvent(i, alert));
          created := if isNew then 1 else 0;
          if days < 0 && document.scope != "" {
            if !ActiveAutomatic(restrictions, i) {
              restrictions := restrictions + [Restriction(document.scope, Some(i), None, true, false)];
            }
          }
        }
      }
    }

    /** Newest first. */
    method MonitorDocuments(today: int) returns (created: nat)
      modifies `events, `restrictions
      ensures events == DocumentsSeen(old(Contents()), today, 0)
      ensures restrictions == Guarded(documents, old(restrictions), today, 0)
      ensures |events| == |old(events)| + created
    {
      var i: nat := |documents|;
      created := 0;
      while i > 0
        invariant i <= |documents|
        invariant events == DocumentsSeen(old(Contents()), today, i)
        invariant restrictions == Guarded(documents, old(restrictions), today, i)
        invariant |events| == |old(events)| + created
      {
        i := i - 1;
        var more := MonitorDocument(i, today);
        created := created + more;
      }
    }

    method MonitorVehicle(i: nat, today: int) returns (created: nat)
      requires i < |vehicles|
      modifies `events
      ensures events == old(events) + VehicleKeys(vehicles[i], i, today)
      ensures |events| == |old(events)| + created
    {
      created := 0;
      if vehicles[i].active {
        var insurance := CheckDate(InsuranceExpiry, i, vehicles[i].insurance, today);
        var roadworthiness := CheckDate(RoadworthinessExpiry, i, vehicles[i].roadworthiness, today);
        created := insurance + roadworthiness;
      }
    }

    method MonitorVehicles(today: int) returns (created: nat)
      modifies `events
      ensures events == VehiclesSeen(old(events), vehicles, today, |vehicles|)
      ensures |events| == |old(events)| + created
    {
      var i := 0;
      created := 0;
      while i < |vehicles|
        invariant i <= |vehicles|
        invariant events == VehiclesSeen(old(events), vehicles, today, i)
        invariant |events| == |old(events)| + created
      {
        var more := MonitorVehicle(i, today);
        created := created + more;
        i := i + 1;
      }
    }

    method MonitorDriver(i: nat, today: int) returns (created: nat)
      requires i < |drivers|
      modifies `events
      ensures events == old(events) + DriverKeys(drivers[i], i, today)
      ensures |events| == |old(events)| + created
    {
      created := 0;
      if drivers[i].active {
        var licence := CheckDate(LicenceExpiry, i, Some(drivers[i].licence), today);
        var medical := CheckDate(MedicalExpiry, i, drivers[i].medical, today);
        created := licence + medical;
      }
    }

    method MonitorDrivers(today: int) returns (created: nat)
      modifies `events
      ensures events == DriversSeen(old(events), drivers, today, |drivers|)
      ensures |events| == |old(events)| + created
    {
      var i := 0;
      created := 0;
      while i < |drivers|
        invariant i <= |drivers|
        invariant events == DriversSeen(old(events), drivers, today, i)
        invariant |events| == |old(events)| + created
      {
        var more := MonitorDriver(i, today);
        created := created + more;
        i := i + 1;
      }
    }

    method MonitorAll(today: int) returns (created: nat)
      modifies `events, `restrictions
      ensures events == old(events) + DueKeys(old(Contents()), today)
      ensures restrictions == Guarded(documents, old(restrictions), today, 0)
      ensures |events| == |old(events)| + created
    {
      AllSeen(Contents(), today);
      var fromDocuments := MonitorDocuments(today);
      var fromVehicles := MonitorVehicles(today);
      var fromDrivers := MonitorDrivers(today);
      created := fromDocuments + fromVehicles + fromDrivers;
    }

    method Monitor(today: int) returns (created: nat)
      modifies `events, `restrictions
      ensures Contents() == LogisticsModel.Monitor(old(Contents()), today)
      ensures created == |events| - |old(events)|
    {
      created := 0;
      if status == Draft || status == Rejected {
        return;
      }
      created := MonitorAll(today);
    }

    // -------------------------------------------------------------- operations

    method PlaceOrder(service: string)
      modifies `orders
      ensures Contents() == LogisticsModel.PlaceOrder(old(Contents()), service).value
    {
      orders := orders + [Order(service, NewOrder)];
    }

    method AcceptOrder(r: nat) returns (reply: Result<()>)
      modifies `orders, `movements
      ensures var x := LogisticsModel.AcceptOrder(old(Contents()), r);
        reply == ReplyOf(x) && Contents() == Left(x, old(Contents()))
    {
      if r >= |orders| {
        return Refused(MISSING);
      }
      if orders[r].status != NewOrder && orders[r].status != BlockedOrder {
        return Refused("transport_request_not_acceptible");
      }
      if RestrictedService(restrictions, orders[r].service) {
        return Refused("service_scope_restricted");
      }
      orders := orders[r := orders[r].(status := AcceptedOrder)];
      if !HasMovement(movements, r) {
        movements := movements + [Movement(Some(r), orders[r].service, Scheduled, None, None)];
      }
      reply := Ok(());
    }

    method DeclineOrder(r: nat) returns (reply: Result<()>)
      modifies `orders
      ensures var x := LogisticsModel.DeclineOrder(old(Contents()), r);
        reply == ReplyOf(x) && Contents() == Left(x, old(Contents()))
    {
      if r >= |orders| {
        return Refused(MISSING);
      }
      if orders[r].status != NewOrder && orders[r].status != BlockedOrder {
        return Refused("transport_request_not_declinable");
      }
      orders := orders[r := orders[r].(status := CancelledOrder)];
      reply := Ok(());
    }

    method Assign(today: int, m: nat, vehicle: Option<nat>, driver: Option<nat>) returns (reply: Result<()>)
      modifies `movements
      ensures var x := LogisticsModel.Assign(old(Contents()), today, m, vehicle, driver);
        reply == ReplyOf(x) && Contents() == Left(x, old(Contents()))
    {
      if m >= |movements| {
        return Refused(MISSING);
      }
      if vehicle.Some? && !(vehicle.value < |vehicles| && vehicles[vehicle.value].active) {
        return Refused(INVALID);
      }
      if driver.Some? && !(driver.value < |drivers| && drivers[driver.value].active) {
        return Refused(INVALID);
      }
      if vehicle.Some? && driver.Some? {
        var dedicated := drivers[driver.value].dedicated;
        if dedicated.Some? && dedicated != vehicle {
          return Refused(CONFLICT);
        }
      }
      if RestrictedService(restrictions, movements[m].service) {
        return Refused("service_scope_restricted");
      }
      if vehicle.Some? {
        var refusal := VehicleRefusal(Contents(), today, vehicle.value, m);
        if refusal.Some? {
          return Refused(refusal.value);
        }
      }
      if driver.Some? {
        var refusal := DriverRefusal(Contents(), today, driver.value, m);
        if refusal.Some? {
          return Refused(refusal.value);
        }
      }
      var movement := movements[m];
      if vehicle.Some? {
        movement := movement.(vehicle := vehicle);
      }
      if driver.Some? {
        movement := movement.(driver := driver);
      }
      if movement.status == Scheduled {
        movement := movement.(status := Assigned);
      }
      movements := movements[m := movement];
      reply := Ok(());
    }

    method SetStatus(m: nat, next: MovementStatus) returns (reply: Result<()>)
      modifies `movements
      ensures var x := LogisticsModel.SetStatus(old(Contents()), m, next);
        reply == ReplyOf(x) && Contents() == Left(x, old(Contents()))
    {
      if m >= |movements| {
        return Refused(MISSING);
      }
      if !MayFollow(movements[m].status, next) {
        return Refused("invalid_movement_status_transition");
      }
      movements := movements[m := movements[m].(status := next)];
      reply := Ok(());
    }
  }

  // ---------------------------------------------------------------- the hourly monitor

  ghost function ContentsOf(files: seq<CompanyFile>): seq<Company>
    reads files
  {
    seq(|files|, i requires 0 <= i < |files| reads files => files[i].Contents())
  }

  function Sum(counts: seq<nat>): nat {
    if counts == [] then 0 else Sum(counts[..|counts| - 1]) + counts[|counts| - 1]
  }

  /** The first `n` companies monitored, the others as before. */
  ghost function MonitoredUpTo(companies: seq<Company>, today: int, n: nat): seq<Company> {
    seq(|companies|, i requires 0 <= i < |companies| =>
      if i < n then LogisticsModel.Monitor(companies[i], today) else companies[i])
  }

  lemma MonitoredNext(companies: seq<Company>, today: int, n: nat)
    requires n < |companies|
    ensures MonitoredUpTo(companies, today, n + 1)
      == MonitoredUpTo(companies, today, n)[n := LogisticsModel.Monitor(companies[n], today)]
    ensures MonitoredUpTo(companies, today, n)[n] == companies[n]
  {
  }

  // ---------------------------------------------------------------- all files on their records

  ghost function StartsOf(files: seq<CompanyFile>): seq<Company>
    reads files
  {
    seq(|files|, i requires 0 <= i < |files| reads files => files[i].start)
  }

  ghost function HistoriesOf(files: seq<CompanyFile>): seq<seq<Step>>
    reads files
  {
    seq(|files|, i requires 0 <= i < |files| reads files => files[i].steps)
  }

  ghost predicate AllRecorded(starts: seq<Company>, histories: seq<seq<Step>>, companies: seq<Company>, today: int) {
    |starts| == |histories| == |companies| && forall j | 0 <= j < |companies| ::
      Recorded(starts[j], histories[j], companies[j]) && NoneAfter(histories[j], today)
  }

  /** Every file holds what its history leaves, and no history goes beyond this day. */
  ghost predicate AllValid(files: seq<CompanyFile>, today: int)
    reads files
  {
    AllRecorded(StartsOf(files), HistoriesOf(files), ContentsOf(files), today)
  }

  /** The histories once every file has been monitored. */
  ghost function Ticked(histories: seq<seq<Step>>, today: int): seq<seq<Step>> {
    seq(|histories|, i requires 0 <= i < |histories| => histories[i] + [Step(Now(today, false), DoMonitor)])
  }

  lemma AllTicked(starts: seq<Company>, histories: seq<seq<Step>>, companies: seq<Company>, today: int)
    requires AllRecorded(starts, histories, companies, today)
    ensures AllRecorded(starts, Ticked(histories, today),
                        MonitoredUpTo(companies, today, |companies|), today)
  {
    forall j | 0 <= j < |companies|
      ensures Recorded(starts[j], Ticked(histories, today)[j],
                       MonitoredUpTo(companies, today, |companies|)[j])
      ensures NoneAfter(Ticked(histories, today)[j], today)
    {
      RecordMonitor(starts[j], histories[j], companies[j], today);
    }
  }

  /** Every company is monitored, each once; the count returned is the number of events created, company by company. */
  method MonitorEach(files: seq<CompanyFile>, today: int) returns (created: nat, ghost grown: seq<nat>)
    requires forall i, j | 0 <= i < j < |files| :: files[i] != files[j]
    modifies files`events, files`restrictions
    ensures ContentsOf(files) == MonitoredUpTo(old(ContentsOf(files)), today, |files|)
    ensures created == Sum(grown) && |grown| == |files|
    ensures forall j | 0 <= j < |files| :: grown[j] == |files[j].events| - |old(files[j].events)|
  {
    created, grown := 0, [];
    var i := 0;
    ghost var before := ContentsOf(files);
    assert MonitoredUpTo(before, today, 0) == before;
    while i < |files|
      invariant i <= |files| && |grown| == i && created == Sum(grown)
      invariant forall j | 0 <= j < |files| :: files[j].Contents() == MonitoredUpTo(before, today, i)[j]
      invariant forall j | 0 <= j < i :: grown[j] == |files[j].events| - |before[j].events|
    {
      MonitoredNext(before, today, i);
      var more := files[i].Monitor(today);
      created, grown := created + more, grown + [more];
      assert grown[..i] + [more] == grown;
      i := i + 1;
    }
  }

  /** The hourly run: every company is monitored, and the run is added to every history. */
  method MonitorExpiries(files: seq<CompanyFile>, today: int) returns (created: nat, ghost grown: seq<nat>)
    requires forall i, j | 0 <= i < j < |files| :: files[i] != files[j]
    requires AllValid(files, today)
    modifies files
    ensures AllValid(files, today) && StartsOf(files) == old(StartsOf(files))
    ensures HistoriesOf(files) == Ticked(old(HistoriesOf(files)), today)
    ensures ContentsOf(files) == MonitoredUpTo(old(ContentsOf(files)), today, |files|)
    ensures created == Sum(grown) && |grown| == |files|
    ensures forall j | 0 <= j < |files| :: grown[j] == |files[j].events| - |old(files[j].events)|
  {
    ghost var starts, histories, before := StartsOf(files), HistoriesOf(files), ContentsOf(files);
    AllTicked(starts, histories, before, today);
    created, grown := MonitorEach(files, today);
    AddTick(files, today);
    ValidAgain(files, starts, Ticked(histories, today), MonitoredUpTo(before, today, |files|), today);
  }

  lemma ValidAgain(
      files: seq<CompanyFile>, starts: seq<Company>, histories: seq<seq<Step>>, companies: seq<Company>, today: int)
    requires AllRecorded(starts, histories, companies, today)
    requires StartsOf(files) == starts && HistoriesOf(files) == histories && ContentsOf(files) == companies
    ensures AllValid(files, today)
  {
  }

  ghost method AddTick(files: seq<CompanyFile>, today: int)
    requires forall i, j | 0 <= i < j < |files| :: files[i] != files[j]
    modifies files`steps
    ensures HistoriesOf(files) == Ticked(old(HistoriesOf(files)), today)
    ensures StartsOf(files) == old(StartsOf(files)) && ContentsOf(files) == old(ContentsOf(files))
  {
    forall j | 0 <= j < |files| {
      files[j].steps := files[j].steps + [Step(Now(today, false), DoMonitor)];
    }
  }
}
