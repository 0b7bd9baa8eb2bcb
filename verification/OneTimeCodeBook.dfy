/** The issue and verify functions of accounts/services.py as methods that update the codes of one user and purpose. */
module OneTimeCodeBook {
  import opened Common
  import opened OneTimeCodes

  /** The four flows that share the machine. */
  datatype Family = EmailVerification | PhoneVerification | PasswordReset | EmailChange

  const WAIT := "verification_budget_exceeded"
  const INVALID := "invalid_verification_code"
  const UNAVAILABLE := "email_unavailable"

  /** Reachable without signing in. */
  predicate Anonymous(f: Family) {
    f == EmailVerification || f == PasswordReset
  }

  function IssueReply(f: Family, outcome: Outcome): Result<()> {
    match outcome
    case OverBudget => if Anonymous(f) then Ok(()) else Refused(WAIT)
    case Closed => if f == EmailChange then Refused(UNAVAILABLE) else Ok(())
    case _ => Ok(())
  }

  function VerifyReply(f: Family, outcome: Outcome): Result<()> {
    match outcome
    case Verified => Ok(())
    case OverBudget => if Anonymous(f) then Refused(INVALID) else Refused(WAIT)
    case Closed => if f == EmailChange then Refused(UNAVAILABLE) else Refused(INVALID)
    case _ => Refused(INVALID)
  }

  // ---------------------------------------------------------------- replies

  /** The book a history of requests leaves, from any book. */
  function BookAfter(p: Policy, b: Book, events: seq<Event>): Book {
    if events == [] then b else Apply(p, BookAfter(p, b, events[..|events| - 1]), events[|events| - 1])
  }

  function ReplyTo(f: Family, p: Policy, b: Book, e: Event): Result<()> {
    match e.request
    case Issue(open, target, secret) => IssueReply(f, IssueCode(p, b, e.time, open, target, secret).1)
    case Verify(open, target, submitted) => VerifyReply(f, VerifyCode(p, b, e.time, open, target, submitted).1)
  }

  function Replies(f: Family, p: Policy, b: Book, events: seq<Event>): seq<Result<()>> {
    seq(|events|, i requires 0 <= i < |events| => ReplyTo(f, p, BookAfter(p, b, events[..i]), events[i]))
  }

  // ---------------------------------------------------------------- what a reply means

  /** Flows of a caller who is signed in, and can be told to wait. */
  const SIGNED_IN: set<Family> := {PhoneVerification, EmailChange}

  /**
   * In every reachable book and every flow a submission is accepted exactly when the flow is open, the failure budget
   * is not spent, and the secret is that of an unconsumed, unexpired code for the target. Only a signed-in caller
   * over the budget is told to wait, and only a closed change of address is called unavailable.
   */
  lemma SubmissionReplies(
      f: Family, p: Policy, events: seq<Event>, now: int, open: bool, target: string, submitted: string)
    requires InOrder(events) && p.maxAttempts > 0 && forall e | e in events :: e.time <= now
    ensures var codes := Run(p, events).codes;
      var r := ReplyTo(f, p, Run(p, events), Event(now, Request.Verify(open, target, submitted)));
      var spent := FailedSince(codes, now - p.window) >= p.maxFailures;
      && (r == Ok(()) <==> open && !spent && exists c | c in codes ::
            c.consumed == None && now < c.expires && c.target == target && c.secret == submitted)
      && (r == Refused(WAIT) <==> open && spent && f in SIGNED_IN)
      && (r == Refused(UNAVAILABLE) <==> !open && f == EmailChange)
      && (r.Refused? ==> r.code in {WAIT, UNAVAILABLE, INVALID})
  {
    RightAnswer(p, events, now, open, target, submitted);
    assert forall c | c in Run(p, events).codes :: Answers(c, now, target, submitted) <==>
      c.consumed == None && now < c.expires && c.target == target && c.secret == submitted;
  }

  /**
   * A request for a code is refused only to a signed-in caller whose budget of codes is spent, and for a change to an
   * address that cannot be used; everyone else is told nothing.
   */
  lemma IssueReplies(f: Family, p: Policy, events: seq<Event>, now: int, open: bool, target: string, secret: string)
    requires InOrder(events) && p.maxAttempts > 0 && forall e | e in events :: e.time <= now
    ensures var codes := Run(p, events).codes;
      var r := ReplyTo(f, p, Run(p, events), Event(now, Request.Issue(open, target, secret)));
      && (r == Refused(WAIT) <==> open && CreatedIn(codes, now - p.window, now) >= p.maxIssues && f in SIGNED_IN)
      && (r == Refused(UNAVAILABLE) <==> !open && f == EmailChange)
      && (r.Refused? ==> r.code in {WAIT, UNAVAILABLE})
  {
    GrantedCode(p, events, now, open, target, secret);
  }

  // ---------------------------------------------------------------- what an anonymous caller sees

  /** Request `i` verifies a code. */
  predicate Succeeds(p: Policy, b: Book, events: seq<Event>, i: nat)
    requires i < |events|
  {
    events[i].request.Verify? &&
    VerifyCode(p, BookAfter(p, b, events[..i]), events[i].time, events[i].request.open, events[i].request.target,
               events[i].request.submitted).1 == Verified
  }

  /** The caller sends the same at the same time; the account and the codes it is sent are hidden from the caller. */
  predicate SameSight(a: Event, b: Event) {
    && a.time == b.time && a.request.target == b.request.target
    && match a.request
       case Issue(_, _, _) => b.request.Issue?
       case Verify(_, _, submitted) => b.request.Verify? && b.request.submitted == submitted
  }

  /** Request `i` submits a secret that is on the book, or that an earlier request issued. */
  ghost predicate Guesses(b: Book, events: seq<Event>, i: nat)
    requires i < |events|
  {
    && events[i].request.Verify?
    && ((exists c | c in b.codes :: c.secret == events[i].request.submitted)
        || exists j | 0 <= j < i :: events[j].request.Issue? && events[j].request.secret == events[i].request.submitted)
  }

  lemma SameReply(f: Family, p: Policy, a: Book, b: Book, e: Event, e': Event)
    requires Anonymous(f) && SameSight(e, e')
    ensures ReplyTo(f, p, a, e) == ReplyTo(f, p, b, e') <==>
      (e.request.Verify? ==>
         var x := VerifyCode(p, a, e.time, e.request.open, e.request.target, e.request.submitted).1;
         var y := VerifyCode(p, b, e'.time, e'.request.open, e'.request.target, e'.request.submitted).1;
         (x == Verified <==> y == Verified))
  {
  }

  /** A code on the book was there from the start or was issued. */
  lemma {:induction false} CodesAreIssued(p: Policy, b: Book, events: seq<Event>, c: Code)
    requires c in BookAfter(p, b, events).codes
    ensures (exists d | d in b.codes :: d.secret == c.secret)
      || exists j | 0 <= j < |events| :: events[j].request.Issue? && events[j].request.secret == c.secret
  {
    if events != [] {
      var init, last := events[..|events| - 1], events[|events| - 1];
      var before := BookAfter(p, b, init);
      if last.request.Issue? && last.request.secret == c.secret {
      } else {
        var d := OldCode(p, before, last, c);
        CodesAreIssued(p, b, init, d);
        assert forall j | 0 <= j < |init| :: init[j] == events[j];
      }
    }
  }

  /** A request adds a code with its own secret only. */
  lemma OldCode(p: Policy, b: Book, e: Event, c: Code) returns (d: Code)
    requires c in Apply(p, b, e).codes && !(e.request.Issue? && e.request.secret == c.secret)
    ensures d in b.codes && d.secret == c.secret
  {
    var i :| 0 <= i < |Apply(p, b, e).codes| && Apply(p, b, e).codes[i] == c;
    if e.request.Verify? {
      VerifyKeepsSecrets(p, b, e.time, e.request.open, e.request.target, e.request.submitted);
    }
    d := b.codes[i];
  }

  lemma VerifyKeepsSecrets(p: Policy, b: Book, now: int, open: bool, target: string, submitted: string)
    ensures var codes := VerifyCode(p, b, now, open, target, submitted).0.codes;
      |codes| == |b.codes| && forall i | 0 <= i < |codes| :: codes[i].secret == b.codes[i].secret
  {
    NewestIsLive(b.codes, target);
  }

  /** A code is verified only by its secret. */
  lemma SuccessIsGuessed(p: Policy, b: Book, events: seq<Event>, i: nat)
    requires i < |events| && Succeeds(p, b, events, i)
    ensures Guesses(b, events, i)
  {
    var before := BookAfter(p, b, events[..i]);
    NewestIsLive(before.codes, events[i].request.target);
    var c := before.codes[Newest(before.codes, events[i].request.target).value];
    CodesAreIssued(p, b, events[..i], c);
    assert forall j | 0 <= j < i :: events[..i][j] == events[j];
  }

  /**
   * What an anonymous caller learns from a whole run of requests: two accounts, with whatever books, in whatever
   * state and sent whatever codes, reply alike exactly when the same submissions succeed; so a caller who never
   * submits an issued secret cannot tell them apart, nor an account from none.
   */
  lemma AnonymousLearnsNothing(f: Family, p: Policy, a: Book, eventsA: seq<Event>, b: Book, eventsB: seq<Event>)
    requires Anonymous(f) && |eventsA| == |eventsB|
    requires forall i | 0 <= i < |eventsA| :: SameSight(eventsA[i], eventsB[i])
    ensures Replies(f, p, a, eventsA) == Replies(f, p, b, eventsB)
      <==> forall i | 0 <= i < |eventsA| :: Succeeds(p, a, eventsA, i) <==> Succeeds(p, b, eventsB, i)
    ensures (forall i | 0 <= i < |eventsA| :: !Guesses(a, eventsA, i) && !Guesses(b, eventsB, i))
      ==> Replies(f, p, a, eventsA) == Replies(f, p, b, eventsB)
  {
    var x, y := Replies(f, p, a, eventsA), Replies(f, p, b, eventsB);
    forall i | 0 <= i < |eventsA|
      ensures x[i] == y[i] <==> (Succeeds(p, a, eventsA, i) <==> Succeeds(p, b, eventsB, i))
      ensures Succeeds(p, a, eventsA, i) ==> Guesses(a, eventsA, i)
      ensures Succeeds(p, b, eventsB, i) ==> Guesses(b, eventsB, i)
    {
      AtEachRequest(f, p, a, eventsA, b, eventsB, i);
    }
    if forall i | 0 <= i < |eventsA| :: Succeeds(p, a, eventsA, i) <==> Succeeds(p, b, eventsB, i) {
      assert forall i | 0 <= i < |x| :: x[i] == y[i];
    }
  }

  lemma AtEachRequest(
      f: Family, p: Policy, a: Book, eventsA: seq<Event>, b: Book, eventsB: seq<Event>, i: nat)
    requires Anonymous(f) && i < |eventsA| == |eventsB| && SameSight(eventsA[i], eventsB[i])
    ensures Replies(f, p, a, eventsA)[i] == Replies(f, p, b, eventsB)[i]
      <==> (Succeeds(p, a, eventsA, i) <==> Succeeds(p, b, eventsB, i))
    ensures Succeeds(p, a, eventsA, i) ==> Guesses(a, eventsA, i)
    ensures Succeeds(p, b, eventsB, i) ==> Guesses(b, eventsB, i)
  {
    SameReply(f, p, BookAfter(p, a, eventsA[..i]), BookAfter(p, b, eventsB[..i]), eventsA[i], eventsB[i]);
    if Succeeds(p, a, eventsA, i) {
      SuccessIsGuessed(p, a, eventsA, i);
    }
    if Succeeds(p, b, eventsB, i) {
      SuccessIsGuessed(p, b, eventsB, i);
    }
  }

  class CodeStore {
    const family: Family
    const policy: Policy
    var codes: seq<Code>
    ghost var wrong: seq<Guess>
    ghost var right: seq<Guess>
    ghost var events: seq<Event>

    ghost function Contents(): Book
      reads this
    {
      Book(codes, wrong, right)
    }

    /** The store holds what its history of requests leaves. */
    ghost predicate Valid()
      reads this
    {
      policy.maxAttempts > 0 && Contents() == Run(policy, events)
    }

    constructor (family: Family, policy: Policy)
      requires policy.maxAttempts > 0
      ensures Valid() && this.family == family && this.policy == policy && codes == [] && events == []
    {
      this.family, this.policy := family, policy;
      codes, wrong, right, events := [], [], [], [];
    }

    method IssueBudgetSpent(now: int) returns (spent: bool)
      ensures spent == IssueBudgetExhausted(policy, codes, now)
    {
      var count, i := 0, 0;
      while i < |codes|
        invariant i <= |codes| && count == CountSince(codes[..i], now - policy.window)
      {
        assert codes[..i + 1][..i] == codes[..i];
        if codes[i].created >= now - policy.window {
          count := count + 1;
        }
        i := i + 1;
      }
      assert codes[..|codes|] == codes;
      spent := count >= policy.maxIssues;
    }

    method AttemptBudgetSpent(now: int) returns (spent: bool)
      ensures spent == AttemptBudgetExhausted(policy, codes, now)
    {
      var total, i := 0, 0;
      while i < |codes|
        invariant i <= |codes| && total == FailedSince(codes[..i], now - policy.window)
      {
        assert codes[..i + 1][..i] == codes[..i];
        if codes[i].created >= now - policy.window {
          total := total + codes[i].failed;
        }
        i := i + 1;
      }
      assert codes[..|codes|] == codes;
      spent := total >= policy.maxFailures;
    }

    method ConsumeUnconsumed(now: int)
      modifies this`codes
      ensures codes == ConsumeAll(old(codes), now)
    {
      var i := 0;
      while i < |codes|
        invariant i <= |codes| == |old(codes)|
        invariant forall j | 0 <= j < i :: codes[j] == Consume(old(codes)[j], now)
        invariant forall j | i <= j < |codes| :: codes[j] == old(codes)[j]
      {
        var c := codes[i];
        if c.consumed == None {
          codes := codes[i := c.(consumed := Some(now))];
        }
        i := i + 1;
      }
    }

    /** Newest first; consumed codes and codes for another target are passed over. */
    method FindLive(target: string) returns (found: Option<nat>)
      ensures found == Newest(codes, target)
    {
      var i: nat := |codes|;
      found := None;
      assert codes[..i] == codes;
      while i > 0 && found == None
        invariant i <= |codes|
        invariant found == None ==> Newest(codes, target) == Newest(codes[..i], target)
        invariant found.Some? ==> found == Newest(codes, target)
        decreases i, found == None
      {
        assert codes[..i][..i - 1] == codes[..i - 1];
        if codes[i - 1].consumed == None && codes[i - 1].target == target {
          found := Some(i - 1);
        } else {
          i := i - 1;
        }
      }
    }

    method Issue(now: int, open: bool, target: string, secret: string) returns (reply: Result<()>)
      requires Valid()
      modifies this
      ensures Valid() && events == old(events) + [Event(now, Request.Issue(open, target, secret))]
      ensures Contents() == IssueCode(policy, old(Contents()), now, open, target, secret).0
      ensures reply == IssueReply(family, IssueCode(policy, old(Contents()), now, open, target, secret).1)
    {
      RunAppend(policy, events, Event(now, Request.Issue(open, target, secret)));
      events := events + [Event(now, Request.Issue(open, target, secret))];
      if !open {
        return if family == EmailChange then Refused(UNAVAILABLE) else Ok(());
      }
      var spent := IssueBudgetSpent(now);
      if spent {
        return if Anonymous(family) then Ok(()) else Refused(WAIT);
      }
      ConsumeUnconsumed(now);
      codes := codes + [NewCode(policy, now, target, secret)];
      reply := Ok(());
    }

    method Verify(now: int, open: bool, target: string, submitted: string) returns (reply: Result<()>)
      requires Valid()
      modifies this
      ensures Valid() && events == old(events) + [Event(now, Request.Verify(open, target, submitted))]
      ensures Contents() == VerifyCode(policy, old(Contents()), now, open, target, submitted).0
      ensures reply == VerifyReply(family, VerifyCode(policy, old(Contents()), now, open, target, submitted).1)
    {
      RunAppend(policy, events, Event(now, Request.Verify(open, target, submitted)));
      events := events + [Event(now, Request.Verify(open, target, submitted))];
      if !open {
        return Refused(if family == EmailChange then UNAVAILABLE else INVALID);
      }
      var spent := AttemptBudgetSpent(now);
      if spent {
        return Refused(if Anonymous(family) then INVALID else WAIT);
      }
      var found := FindLive(target);
      NewestIsLive(codes, target);
      reply := Refused(INVALID);
      if found.Some? {
        var i := found.value;
        var verification := codes[i];
        if verification.expires > now && verification.failed < verification.maxAttempts {
          if verification.secret == submitted {
            verification := verification.(consumed := Some(now));
            right := right + [Guess(i, now)];
            reply := Ok(());
          } else {
            verification := verification.(failed := verification.failed + 1);
            if verification.failed >= verification.maxAttempts {
              verification := verification.(consumed := Some(now));
            }
            wrong := wrong + [Guess(i, now)];
          }
        } else {
          verification := verification.(consumed := Some(now));
        }
        codes := codes[i := verification];
      }
    }
  }
}
