/** What the logistics review, its monitor and its operations promise, over every run of requests. */
module LogisticsTheorems {
  import opened Common
  import opened Rounding
  import opened LogisticsModel
  import opened LogisticsVersions
  import opened LogisticsMonitor
  import opened LogisticsInvariant

  /** `c` is the file some run of requests leaves, the last of them no later than `today`. */
  ghost predicate Reachable(c: Company, today: int) {
    exists start, steps :: Reaches(start, steps, c, today)
  }

  ghost predicate Reaches(start: Company, steps: seq<Step>, c: Company, today: int) {
    && JustOpened(start) && InOrder(steps) && c == Run(start, steps)
    && (steps != [] ==> steps[|steps| - 1].now.today <= today)
  }

  lemma ReachableLaws(c: Company, today: int)
    requires Reachable(c, today)
    ensures Kept(c, today)
  {
    var start, steps :| Reaches(start, steps, c, today);
    ReachableKept(start, steps, today);
  }

  // ---------------------------------------------------------------- approval

  /** The document types no file can do without. */
  const CHECKLIST: set<Item> := {
    CacIncorporation, TaxDocumentation, RepresentativeDeclaration, VehicleSchedule, DriverSchedule,
    MaintenanceProcedures, VehicleInsurance, HseDeclaration}

  /**
   * In every reachable approved file the applicable sections are passed and filled, every checklist
   * requirement has a current verified document, every current document is verified or is a first
   * checklist addition waiting for its verdict, and nothing is outstanding.
   */
  lemma ApprovedIsCleared(c: Company, today: int)
    requires Reachable(c, today) && c.status == Approved
    ensures forall d | d in c.sections && c.sections[d].applicable ::
      c.sections[d].verdict == Passed && c.sections[d].data != map[]
    ensures forall i | i in CHECKLIST :: exists d | d in c.documents ::
      d.kind == Listed(i) && d.current && d.status == Verified
    ensures forall d | d in c.documents && d.current ::
      d.status == Verified || (d.status == Unreviewed && d.version == 1 && d.kind.Listed?)
    ensures (forall k | k in c.conditions :: k.cleared) && (forall q | q in c.inquiries :: q.status == Closed)
    ensures c.services != [] && (exists v | v in c.vehicles :: v.active) && (exists d | d in c.drivers :: d.active)
  {
    ReachableLaws(c, today);
    assert Obeys(Approval, c, today);
    forall i | i in CHECKLIST
      ensures exists d | d in c.documents :: d.kind == Listed(i) && d.current && d.status == Verified
    {
      assert Required(i) && HasVerified(c.documents, Listed(i));
    }
  }

  ghost predicate SectionsFilled(c: Company) {
    && (exists d | d in c.sections :: c.sections[d].applicable)
    && forall d | d in c.sections && c.sections[d].applicable :: c.sections[d].data != map[]
  }

  ghost predicate NothingAsked(c: Company) {
    forall q | q in c.inquiries :: q.status == Closed
  }

  ghost predicate EvidenceStands(c: Company, today: int) {
    forall d | d in c.documents && d.current :: d.status != Refuted && (d.expires.Some? ==> today <= d.expires.value)
  }

  ghost predicate ChecklistHeld(c: Company) {
    forall i | i in CHECKLIST :: exists d | d in c.documents :: d.kind == Listed(i) && d.current
  }

  /** Everything a complete application needs, in the file's own terms. */
  ghost predicate ReadyToSubmit(c: Company, now: Now) {
    && now.account && Equipped(c) && SectionsFilled(c) && NothingAsked(c) && EvidenceStands(c, now.today)
    && ChecklistHeld(c)
  }

  /** One hundred percent means every check. */
  lemma ChecksPass(c: Company, now: Now)
    ensures Percent(Checks(c, now)) == 100 <==>
      && now.account && Equipped(c) && SectionsFilled(c) && RequiredSupplied(c.documents, now.today) && NothingAsked(c)
  {
    var checks := Checks(c, now);
    GateIsExact(checks);
    assert (forall i | 0 <= i < |checks| :: checks[i])
      <==> checks[0] && checks[1] && checks[2] && checks[3] && checks[4] && checks[5] && checks[6];
  }

  lemma SuppliedMeans(c: Company, today: int)
    requires EvidenceStands(c, today)
    ensures RequiredSupplied(c.documents, today) <==> ChecklistHeld(c)
  {
    if RequiredSupplied(c.documents, today) {
      forall i | i in CHECKLIST
        ensures exists d | d in c.documents :: d.kind == Listed(i) && d.current
      {
        assert Required(i) && Supplied(c.documents, Listed(i), today);
      }
    }
    if ChecklistHeld(c) {
      forall i: Item | Required(i)
        ensures Supplied(c.documents, Listed(i), today)
      {
        assert i in CHECKLIST;
      }
    }
  }

  lemma CompletenessExact(c: Company, now: Now)
    ensures CompletenessRefusal(c, now) == None <==> ReadyToSubmit(c, now)
  {
    ChecksPass(c, now);
    if EvidenceStands(c, now.today) {
      SuppliedMeans(c, now.today);
    }
  }

  /** An application is submitted exactly when it is editable, complete, and free of refuted or lapsed evidence. */
  lemma SubmitExactly(c: Company, now: Now)
    ensures Submit(c, now).Ok? <==> Editable(c.status) && ReadyToSubmit(c, now)
    ensures Submit(c, now).Ok? ==> Submit(c, now).value == c.(status := Submitted)
  {
    CompletenessExact(c, now);
  }

  ghost predicate FullyVerified(documents: seq<Document>) {
    forall d | d in documents && d.current :: d.status == Verified
  }

  lemma ApprovalOpens(c: Company, now: Now, conditional: bool)
    ensures ApprovalRefusal(c, now, conditional) == None <==>
      && ReadyToSubmit(c, now) && FullyVerified(c.documents)
      && (forall d | d in c.sections && c.sections[d].applicable ::
           c.sections[d].verdict == Passed || (conditional && c.sections[d].verdict == Attention))
      && (!conditional ==> (forall k | k in c.conditions :: k.cleared) && forall r | r in c.restrictions :: r.resolved)
  {
    CompletenessExact(c, now);
  }

  /**
   * Full approval is granted exactly from an open decision on a complete, fully verified, unconditional and
   * unrestricted file.
   */
  lemma ApproveExactly(c: Company, now: Now, scopes: seq<string>)
    ensures Decide(c, now, Approved, scopes).Ok? <==>
      && (c.status == UnderReview || c.status == ConditionallyApproved) && scopes == []
      && ReadyToSubmit(c, now) && FullyVerified(c.documents)
      && (forall d | d in c.sections && c.sections[d].applicable :: c.sections[d].verdict == Passed)
      && (forall k | k in c.conditions :: k.cleared) && (forall r | r in c.restrictions :: r.resolved)
    ensures Decide(c, now, Approved, scopes).Ok? ==> Decide(c, now, Approved, scopes).value == c.(status := Approved)
  {
    ApprovalOpens(c, now, false);
  }

  function Raised(scopes: seq<string>): seq<Condition> {
    seq(|scopes|, i requires 0 <= i < |scopes| => Condition(scopes[i], false))
  }

  lemma {:induction false} AddConditionsExact(c: Company, scopes: seq<string>)
    ensures AddConditions(c, scopes).Ok? <==> forall s | s in scopes :: s == "" || s in c.services
    ensures AddConditions(c, scopes).Ok? ==> var c' := AddConditions(c, scopes).value;
      c'.conditions == c.conditions + Raised(scopes) && c'.services == c.services
  {
    if scopes != [] {
      var init, last := scopes[..|scopes| - 1], scopes[|scopes| - 1];
      AddConditionsExact(c, init);
      assert forall s | s in scopes :: s in init || s == last;
      assert last in scopes && forall s | s in init :: s in scopes;
      assert Raised(scopes) == Raised(init) + [Condition(last, false)];
    }
  }

  ghost predicate LeavesCondition(c: Company, scopes: seq<string>) {
    AddConditions(c, scopes).Ok? && exists k | k in AddConditions(c, scopes).value.conditions :: !k.cleared
  }

  /** Conditions are left to clear when some come with the decision, or are there already. */
  lemma ConditionsLeft(c: Company, scopes: seq<string>)
    ensures LeavesCondition(c, scopes) <==>
      && (forall s | s in scopes :: s == "" || s in c.services)
      && (scopes != [] || exists k | k in c.conditions :: !k.cleared)
  {
    AddConditionsExact(c, scopes);
    if AddConditions(c, scopes).Ok? && scopes != [] {
      assert Raised(scopes)[0] in AddConditions(c, scopes).value.conditions;
    }
  }

  lemma ConditionalGates(c: Company, now: Now, scopes: seq<string>)
    ensures Decide(c, now, ConditionallyApproved, scopes).Ok? <==>
      c.status == UnderReview && ApprovalRefusal(c, now, true) == None && LeavesCondition(c, scopes)
  {
  }

  /** Conditional approval tolerates sections that need attention, but needs a condition left to clear. */
  lemma ApproveConditionallyExactly(c: Company, now: Now, scopes: seq<string>)
    ensures Decide(c, now, ConditionallyApproved, scopes).Ok? <==>
      && c.status == UnderReview && ReadyToSubmit(c, now) && FullyVerified(c.documents)
      && (forall d | d in c.sections && c.sections[d].applicable ::
           c.sections[d].verdict == Passed || c.sections[d].verdict == Attention)
      && (forall s | s in scopes :: s == "" || s in c.services)
      && (scopes != [] || exists k | k in c.conditions :: !k.cleared)
  {
    ConditionalGates(c, now, scopes);
    ApprovalOpens(c, now, true);
    ConditionsLeft(c, scopes);
  }

  // ---------------------------------------------------------------- waiting

  /** An information request that is not closed, or a refuted current document, always shows in the status. */
  lemma WaitingIsRecorded(c: Company, today: int)
    requires Reachable(c, today)
    ensures (exists q | q in c.inquiries :: q.status != Closed) ==> c.status == AwaitingInformation
    ensures (exists d | d in c.documents :: d.current && d.status == Refuted)
      ==> c.status == AwaitingInformation || c.status == ConditionallyApproved || c.status == Rejected
  {
    ReachableLaws(c, today);
    assert Obeys(Waiting, c, today);
  }

  function Outstanding(inquiries: seq<Inquiry>): nat {
    if inquiries == [] then 0
    else Outstanding(inquiries[..|inquiries| - 1]) + if inquiries[|inquiries| - 1].status != Closed then 1 else 0
  }

  lemma {:induction false} OutstandingExact(inquiries: seq<Inquiry>)
    ensures Outstanding(inquiries) == 0 <==> NothingOutstanding(inquiries)
  {
    if inquiries != [] {
      OutstandingExact(inquiries[..|inquiries| - 1]);
      assert forall q | q in inquiries :: q in inquiries[..|inquiries| - 1] || q == inquiries[|inquiries| - 1];
      assert inquiries[|inquiries| - 1] in inquiries;
    }
  }

  lemma {:induction false} ClosingOne(inquiries: seq<Inquiry>, q: nat)
    requires q < |inquiries| && inquiries[q].status != Closed
    ensures Outstanding(inquiries[q := inquiries[q].(status := Closed)]) == Outstanding(inquiries) - 1
  {
    var after := inquiries[q := inquiries[q].(status := Closed)];
    if q == |inquiries| - 1 {
      assert after[..q] == inquiries[..q];
    } else {
      ClosingOne(inquiries[..|inquiries| - 1], q);
      assert after[..|inquiries| - 1] == inquiries[..|inquiries| - 1][q := inquiries[q].(status := Closed)];
    }
  }

  ghost predicate OnlyWithdrawals(steps: seq<Step>) {
    forall s | s in steps :: s.action.DoWithdraw?
  }

  /** Withdrawing never changes a document. */
  lemma {:induction false} WithdrawalsKeepDocuments(c: Company, steps: seq<Step>)
    requires OnlyWithdrawals(steps)
    ensures Run(c, steps).documents == c.documents
    ensures c.status == AwaitingInformation && !NothingRefuted(c.documents)
      ==> Run(c, steps).status == AwaitingInformation
  {
    if steps != [] {
      assert steps[|steps| - 1] in steps;
      WithdrawalsKeepDocuments(c, steps[..|steps| - 1]);
    }
  }

  lemma {:induction false} RunCons(c: Company, s: Step, steps: seq<Step>)
    ensures Run(c, [s] + steps) == Run(After(c, s), steps)
  {
    var all := [s] + steps;
    if steps == [] {
      assert all[..|all| - 1] == [];
      assert Run(c, all) == After(Run(c, []), s);
    } else {
      var init, last := steps[..|steps| - 1], steps[|steps| - 1];
      assert all[..|all| - 1] == [s] + init && all[|all| - 1] == last;
      RunCons(c, s, init);
      assert Run(c, all) == After(Run(c, [s] + init), last);
    }
  }

  lemma {:induction false} WithdrawAll(c: Company, now: Now) returns (steps: seq<Step>)
    requires c.status == AwaitingInformation && NothingRefuted(c.documents) && !NothingOutstanding(c.inquiries)
    ensures OnlyWithdrawals(steps) && Run(c, steps).status == UnderReview && |steps| == Outstanding(c.inquiries)
    decreases Outstanding(c.inquiries)
  {
    var item :| item in c.inquiries && item.status != Closed;
    var q: nat :| q < |c.inquiries| && c.inquiries[q] == item;
    var s := Step(now, DoWithdraw(q));
    ClosingOne(c.inquiries, q);
    var c' := After(c, s);
    OutstandingExact(c'.inquiries);
    OutstandingExact(c.inquiries);
    if NothingOutstanding(c'.inquiries) {
      steps := [s];
      RunCons(c, s, []);
      assert [s] + [] == [s];
    } else {
      var more := WithdrawAll(c', now);
      steps := [s] + more;
      RunCons(c, s, more);
    }
  }

  /**
   * A file parked on outstanding requests can be handed back to the desk by withdrawing them
   * exactly when none of its current documents is refuted; then one withdrawal each is enough.
   */
  lemma ParkedFileCanBeReleased(c: Company, now: Now)
    requires c.status == AwaitingInformation && !NothingOutstanding(c.inquiries)
    ensures (exists steps ::
      OnlyWithdrawals(steps) && |steps| == Outstanding(c.inquiries) && Run(c, steps).status == UnderReview)
      <==> NothingRefuted(c.documents)
  {
    if NothingRefuted(c.documents) {
      var steps := WithdrawAll(c, now);
    } else {
      forall steps | OnlyWithdrawals(steps)
        ensures Run(c, steps).status == AwaitingInformation
      {
        WithdrawalsKeepDocuments(c, steps);
      }
    }
  }

  // ---------------------------------------------------------------- status edges

  /** The only changes of status, and the requests that make them. */
  predicate Edge(before: Status, after: Status, a: Action) {
    match a
    case DoSubmit => Editable(before) && after == Submitted
    case DoStartReview => before == Submitted && after == UnderReview
    case DoAsk => Reviewable(before) && after == AwaitingInformation
    case DoDecide(decision, _) =>
      after == decision
      && ((before == UnderReview && (after == Approved || after == ConditionallyApproved || after == Rejected))
          || (before == ConditionallyApproved && (after == Approved || after == Rejected)))
    case DoReviewDocument(_, verified) =>
      if verified then before == AwaitingInformation && after == UnderReview
        else before == UnderReview && after == AwaitingInformation
    case DoReviewResponse(_, accepted) => accepted && before == AwaitingInformation && after == UnderReview
    case DoWithdraw(_) => before == AwaitingInformation && after == UnderReview
    case DoUpload(_) => before == Approved && after == AwaitingInformation
    case _ => false
  }

  lemma StatusEdges(c: Company, s: Step)
    ensures After(c, s).status != c.status ==> Edge(c.status, After(c, s).status, s.action)
  {
    if s.action.DoDecide? {
      AddConditionsStatus(c, s.action.scopes);
    }
  }

  lemma {:induction false} AddConditionsStatus(c: Company, scopes: seq<string>)
    ensures AddConditions(c, scopes).Ok? ==> AddConditions(c, scopes).value.status == c.status
  {
    if scopes != [] {
      AddConditionsStatus(c, scopes[..|scopes| - 1]);
    }
  }

  // ---------------------------------------------------------------- documents

  /**
   * Per kind the versions are exactly 1..n, exactly the n-th is current, and the domain, scope,
   * vehicle, driver and condition are those of the first.
   */
  lemma VersionChains(c: Company, today: int, kind: Kind, v: nat)
    requires Reachable(c, today)
    ensures (exists d | d in c.documents :: d.kind == kind && d.version == v)
      <==> 1 <= v <= CountKind(c.documents, kind)
    ensures forall d | d in c.documents && d.kind == kind :: d.current <==> d.version == CountKind(c.documents, kind)
    ensures forall a, b | a in c.documents && b in c.documents && a.kind == kind && b.kind == kind ::
      SameLinks(a, b) && (a.version == b.version ==> a == b)
  {
    ReachableLaws(c, today);
    assert Obeys(Records, c, today);
    ChainMeans(c.documents, kind, v);
  }

  // ---------------------------------------------------------------- sign-offs

  /**
   * A passed section of any domain but the mineral one (see LogisticsMineral) has data, evidence where
   * the checklist asks for some, and no current evidence that was refuted or came after the sign-off,
   * checklist additions apart.
   */
  lemma SignOffsRest(c: Company, today: int, d: Domain)
    requires Reachable(c, today) && d in c.sections && d != Mineral && c.sections[d].verdict == Passed
    ensures c.sections[d].applicable && c.sections[d].data != map[]
    ensures NeedsEvidence(d) ==> exists x | x in c.documents :: x.current && x.domain == d
    ensures forall x | x in c.documents && x.current && x.domain == d :: x.status == Verified || PendingAddition(x)
  {
    ReachableLaws(c, today);
    assert Obeys(Records, c, today);
    assert SignedOff(c.sections[d], d, c.documents);
  }

  /** A company with a declared mineral service always has the mineral domain in its review. */
  lemma MineralServiceIsReviewed(c: Company, today: int)
    requires Reachable(c, today) && IsMineral(c.services)
    ensures Mineral in c.sections && c.sections[Mineral].applicable
    ensures c.status == Approved ==> c.sections[Mineral].verdict == Passed && c.sections[Mineral].data != map[]
  {
    ReachableLaws(c, today);
    assert Obeys(MineralDomain, c, today) && Obeys(Approval, c, today);
  }

  // ---------------------------------------------------------------- restrictions

  /**
   * Over any run the monitor raises at most one restriction for a document, ever: none is removed
   * (see LogisticsHistory.RestrictionsOnlyGrow), and no two carry the same document. A resolved one stays behind a
   * document that is no longer current.
   */
  lemma OneAutomaticRestriction(c: Company, today: int, a: nat, b: nat)
    requires Reachable(c, today) && a < |c.restrictions| && b < |c.restrictions|
    requires c.restrictions[a].automatic && c.restrictions[b].automatic
      && c.restrictions[a].document == c.restrictions[b].document
    ensures a == b
    ensures c.restrictions[a].document.Some? && c.restrictions[a].document.value < |c.documents|
    ensures var d := c.documents[c.restrictions[a].document.value];
      Lapsed(d.expires, today) && (c.restrictions[a].resolved ==> !d.current)
  {
    ReachableLaws(c, today);
    assert Obeys(Records, c, today);
    assert c.restrictions[a] in c.restrictions && Justified(c.documents, c.restrictions[a], today);
  }

  lemma LowerEmpty(s: string)
    ensures Lower(s) == "" <==> s == ""
  {
  }

  lemma RestrictionStops(c: Company, r: Restriction, now: Now, o: nat, m: nat, vehicle: Option<nat>,
      driver: Option<nat>)
    requires r in c.restrictions && !r.resolved && r.scope != ""
    ensures o < |c.orders| && Lower(c.orders[o].service) == Lower(r.scope) ==> AcceptOrder(c, o).Refused?
    ensures m < |c.movements| && Lower(c.movements[m].service) == Lower(r.scope)
      ==> Assign(c, now.today, m, vehicle, driver).Refused?
  {
    LowerEmpty(r.scope);
    if o < |c.orders| {
      LowerEmpty(c.orders[o].service);
    }
    if m < |c.movements| {
      LowerEmpty(c.movements[m].service);
    }
  }

  /**
   * An outstanding condition on a service keeps a restriction on it that cannot be resolved, so no
   * transport request for that service is accepted and no movement of it is assigned.
   */
  lemma ConditionsBindOperations(
      c: Company, now: Now, k: nat, o: nat, m: nat, vehicle: Option<nat>, driver: Option<nat>)
    requires Reachable(c, now.today) && k < |c.conditions| && !c.conditions[k].cleared && c.conditions[k].scope != ""
    ensures exists r: nat | r < |c.restrictions| ::
      c.restrictions[r].condition == Some(k) && c.restrictions[r].scope == c.conditions[k].scope
      && !c.restrictions[r].resolved && Resolve(c, now, r).Refused?
    ensures o < |c.orders| && Lower(c.orders[o].service) == Lower(c.conditions[k].scope) ==> AcceptOrder(c, o).Refused?
    ensures m < |c.movements| && Lower(c.movements[m].service) == Lower(c.conditions[k].scope)
      ==> Assign(c, now.today, m, vehicle, driver).Refused?
  {
    ReachableLaws(c, now.today);
    assert Obeys(Records, c, now.today);
    assert Holds(c.restrictions, c.conditions[k].scope, k);
    var x :| x in c.restrictions && x.condition == Some(k) && x.scope == c.conditions[k].scope && !x.resolved;
    RestrictionStops(c, x, now, o, m, vehicle, driver);
    var r: nat :| r < |c.restrictions| && c.restrictions[r] == x;
    assert Resolve(c, now, r).Refused?;
  }

  /** Once the monitor has seen an expired document, its service takes no order and no assignment. */
  lemma ExpiryStopsOperations(
      c: Company, now: Now, i: nat, o: nat, m: nat, vehicle: Option<nat>, driver: Option<nat>)
    requires Reachable(c, now.today) && Monitored(c.status) && i < |c.documents| && Restricts(c.documents[i], now.today)
    ensures var c' := Monitor(c, now.today);
      && (o < |c.orders| && Lower(c.orders[o].service) == Lower(c.documents[i].scope) ==> AcceptOrder(c', o).Refused?)
      && (m < |c.movements| && Lower(c.movements[m].service) == Lower(c.documents[i].scope) ==>
            Assign(c', now.today, m, vehicle, driver).Refused?)
  {
    var c' := Monitor(c, now.today);
    ReachableLaws(c, now.today);
    GuardedExact(c.documents, c.restrictions, now.today, 0);
    MonitorKeeps(c, now.today);
    assert Obeys(Records, c', now.today);
    assert ActiveAutomatic(c'.restrictions, i);
    var x :| x in c'.restrictions && x.document == Some(i) && x.automatic && !x.resolved;
    assert Justified(c'.documents, x, now.today);
    RestrictionStops(c', x, now, o, m, vehicle, driver);
  }

  // ---------------------------------------------------------------- operations

  /** No two active movements share a vehicle or a driver; a scheduled one has neither. */
  lemma AssignmentsAreExclusive(c: Company, today: int, i: nat, j: nat)
    requires Reachable(c, today) && i < |c.movements| && j < |c.movements| && i != j
    ensures Active(c.movements[i].status) && Active(c.movements[j].status) ==>
      && (c.movements[i].vehicle == c.movements[j].vehicle ==> c.movements[i].vehicle == None)
      && (c.movements[i].driver == c.movements[j].driver ==> c.movements[i].driver == None)
    ensures c.movements[i].status == Scheduled ==> c.movements[i].vehicle == None && c.movements[i].driver == None
  {
    ReachableLaws(c, today);
    assert Obeys(Assignment, c, today);
    assert c.movements[i] in c.movements;
    if Active(c.movements[i].status) && Active(c.movements[j].status) {
      assert !Share(c.movements[if i < j then i else j], c.movements[if i < j then j else i]);
    }
  }

  /** A transport request has a movement, and then only one, exactly if it was accepted. */
  lemma OneMovementPerOrder(c: Company, today: int, r: nat)
    requires Reachable(c, today) && r < |c.orders|
    ensures c.orders[r].status == AcceptedOrder <==> exists m | m in c.movements :: m.order == Some(r)
    ensures forall i, j | 0 <= i < |c.movements| && 0 <= j < |c.movements|
      && c.movements[i].order == c.movements[j].order :: i == j
    ensures forall m | m in c.movements && m.order == Some(r) :: m.service == c.orders[r].service
  {
    ReachableLaws(c, today);
    assert Obeys(Orders, c, today);
    assert OrderKept(c.orders[r], HasMovement(c.movements, r));
  }
}
