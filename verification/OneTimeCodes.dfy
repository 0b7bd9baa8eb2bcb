/** One-time codes of accounts/services.py: one user, one purpose, and the budgets counted over a sliding window. */
module OneTimeCodes {
  import opened Common

  datatype Policy = Policy(ttl: nat, window: nat, maxIssues: nat, maxFailures: nat, maxAttempts: nat)

  /** Times are in microseconds. */
  const MINUTE: nat := 60_000_000

  const OTP := Policy(10 * MINUTE, 60 * MINUTE, 5, 10, 5)

  /** `target` is the phone number or the new address a code is bound to, "" where there is none. */
  datatype Code = Code(
    created: int, expires: int, target: string, secret: string, failed: nat, maxAttempts: nat, consumed: Option<int>)

  /** A submission that was compared with code number `code`. */
  datatype Guess = Guess(code: nat, time: int)

  datatype Book = Book(codes: seq<Code>, wrong: seq<Guess>, right: seq<Guess>)

  /**
   * `open` is what is checked before the budget: the account exists and is
   * active, and for an address or its change that it can still be verified or used.
   */
  datatype Request =
    | Issue(open: bool, target: string, secret: string)
    | Verify(open: bool, target: string, submitted: string)

  datatype Event = Event(time: int, request: Request)

  datatype Outcome = Closed | OverBudget | Issued | Verified | NotVerified

  // ---------------------------------------------------------------- the two budgets

  function CountSince(codes: seq<Code>, since: int): nat {
    if codes == [] then 0
    else CountSince(codes[..|codes| - 1], since) + if codes[|codes| - 1].created >= since then 1 else 0
  }

  function FailedSince(codes: seq<Code>, since: int): nat {
    if codes == [] then 0
    else
      FailedSince(codes[..|codes| - 1], since)
      + if codes[|codes| - 1].created >= since then codes[|codes| - 1].failed else 0
  }

  predicate IssueBudgetExhausted(p: Policy, codes: seq<Code>, now: int) {
    CountSince(codes, now - p.window) >= p.maxIssues
  }

  predicate AttemptBudgetExhausted(p: Policy, codes: seq<Code>, now: int) {
    FailedSince(codes, now - p.window) >= p.maxFailures
  }

  // ---------------------------------------------------------------- issuing and verifying

  function Consume(c: Code, now: int): Code {
    if c.consumed == None then c.(consumed := Some(now)) else c
  }

  function ConsumeAll(codes: seq<Code>, now: int): seq<Code> {
    seq(|codes|, i requires 0 <= i < |codes| => Consume(codes[i], now))
  }

  function NewCode(p: Policy, now: int, target: string, secret: string): Code {
    Code(now, now + p.ttl, target, secret, 0, p.maxAttempts, None)
  }

  function IssueCode(p: Policy, b: Book, now: int, open: bool, target: string, secret: string): (Book, Outcome) {
    if !open then (b, Closed)
    else if IssueBudgetExhausted(p, b.codes, now) then (b, OverBudget)
    else (b.(codes := ConsumeAll(b.codes, now) + [NewCode(p, now, target, secret)]), Issued)
  }

  /** The newest unconsumed code bound to the target. */
  function Newest(codes: seq<Code>, target: string): Option<nat> {
    if codes == [] then None
    else if codes[|codes| - 1].consumed == None && codes[|codes| - 1].target == target then Some(|codes| - 1)
    else Newest(codes[..|codes| - 1], target)
  }

  lemma {:induction false} NewestIsLive(codes: seq<Code>, target: string)
    ensures Newest(codes, target).Some? ==> var i := Newest(codes, target).value;
      i < |codes| && codes[i].consumed == None && codes[i].target == target
    ensures Newest(codes, target) == None ==> forall c | c in codes :: c.consumed.Some? || c.target != target
    ensures Newest(codes, target).Some? ==> forall j | Newest(codes, target).value < j < |codes| ::
      codes[j].consumed.Some? || codes[j].target != target
  {
    if codes != [] {
      NewestIsLive(codes[..|codes| - 1], target);
      assert forall c | c in codes :: c in codes[..|codes| - 1] || c == codes[|codes| - 1];
    }
  }

  function Compare(b: Book, i: nat, now: int, submitted: string): (Book, Outcome)
    requires i < |b.codes|
  {
    var c := b.codes[i];
    if !(c.expires > now && c.failed < c.maxAttempts) then
      (b.(codes := b.codes[i := c.(consumed := Some(now))]), NotVerified)
    else if c.secret == submitted then
      (b.(codes := b.codes[i := c.(consumed := Some(now))], right := b.right + [Guess(i, now)]), Verified)
    else
      var tried := c.(failed := c.failed + 1);
      var kept := if tried.failed >= tried.maxAttempts then tried.(consumed := Some(now)) else tried;
      (b.(codes := b.codes[i := kept], wrong := b.wrong + [Guess(i, now)]), NotVerified)
  }

  function VerifyCode(p: Policy, b: Book, now: int, open: bool, target: string, submitted: string): (Book, Outcome) {
    if !open then (b, Closed)
    else if AttemptBudgetExhausted(p, b.codes, now) then (b, OverBudget)
    else
      NewestIsLive(b.codes, target);
      match Newest(b.codes, target)
      case None => (b, NotVerified)
      case Some(i) => Compare(b, i, now, submitted)
  }

  function Apply(p: Policy, b: Book, e: Event): Book {
    match e.request
    case Issue(open, target, secret) => IssueCode(p, b, e.time, open, target, secret).0
    case Verify(open, target, submitted) => VerifyCode(p, b, e.time, open, target, submitted).0
  }

  function Run(p: Policy, events: seq<Event>): Book {
    if events == [] then Book([], [], []) else Apply(p, Run(p, events[..|events| - 1]), events[|events| - 1])
  }

  ghost predicate InOrder(events: seq<Event>) {
    forall i, j | 0 <= i < j < |events| :: events[i].time <= events[j].time
  }

  // ---------------------------------------------------------------- what every run keeps

  /** Wrong guesses on code `i`. */
  function CountOn(guesses: seq<Guess>, i: nat): nat {
    if guesses == [] then 0
    else CountOn(guesses[..|guesses| - 1], i) + if guesses[|guesses| - 1].code == i then 1 else 0
  }

  ghost predicate CodesKept(p: Policy, codes: seq<Code>, now: int) {
    && (forall i | 0 <= i < |codes| ::
          && codes[i].created <= now && codes[i].expires == codes[i].created + p.ttl
          && codes[i].maxAttempts == p.maxAttempts && codes[i].failed <= p.maxAttempts
          && (codes[i].consumed == None ==> codes[i].failed < p.maxAttempts))
    && (forall i, j | 0 <= i < j < |codes| :: codes[i].created <= codes[j].created)
    && (forall i | 0 <= i < |codes| - 1 :: codes[i].consumed.Some?)
  }

  /** A wrong guess falls in the lifetime of its code, and before the next code is issued. */
  ghost predicate GuessKept(codes: seq<Code>, g: Guess, now: int) {
    && g.code < |codes| && codes[g.code].created <= g.time < codes[g.code].expires && g.time <= now
    && (g.code + 1 < |codes| ==> g.time <= codes[g.code + 1].created)
  }

  ghost predicate GuessesKept(codes: seq<Code>, wrong: seq<Guess>, now: int) {
    forall g | g in wrong :: GuessKept(codes, g, now)
  }

  /** The failure counter of a code is the number of wrong guesses on it. */
  ghost predicate FailuresCounted(codes: seq<Code>, wrong: seq<Guess>) {
    forall i | 0 <= i < |codes| :: codes[i].failed == CountOn(wrong, i)
  }

  /** A code is answered right at most once, and is consumed by it. */
  ghost predicate RightOnce(codes: seq<Code>, right: seq<Guess>) {
    && (forall g | g in right :: g.code < |codes|)
    && (forall i | 0 <= i < |codes| :: CountOn(right, i) <= if codes[i].consumed == None then 0 else 1)
  }

  ghost predicate Kept(p: Policy, b: Book, now: int) {
    && CodesKept(p, b.codes, now)
    && GuessesKept(b.codes, b.wrong, now)
    && FailuresCounted(b.codes, b.wrong)
    && RightOnce(b.codes, b.right)
  }

  lemma {:induction false} CountOnAppend(guesses: seq<Guess>, g: Guess, i: nat)
    ensures CountOn(guesses + [g], i) == CountOn(guesses, i) + if g.code == i then 1 else 0
  {
    assert (guesses + [g])[..|guesses|] == guesses;
  }

  lemma {:induction false} CountOnNone(guesses: seq<Guess>, i: nat)
    requires forall g | g in guesses :: g.code < i
    ensures CountOn(guesses, i) == 0
  {
    if guesses != [] {
      assert guesses[|guesses| - 1] in guesses;
      CountOnNone(guesses[..|guesses| - 1], i);
    }
  }

  lemma KeptLater(p: Policy, b: Book, now: int, later: int)
    requires Kept(p, b, now) && now <= later
    ensures Kept(p, b, later)
  {
  }

  lemma IssueKeeps(p: Policy, b: Book, now: int, open: bool, target: string, secret: string)
    requires Kept(p, b, now) && p.maxAttempts > 0
    ensures Kept(p, IssueCode(p, b, now, open, target, secret).0, now)
  {
    var c := NewCode(p, now, target, secret);
    var codes' := ConsumeAll(b.codes, now) + [c];
    IssueKeepsCodes(p, b.codes, now, c);
    IssueKeepsGuesses(p, b.codes, b.wrong, now, c);
    assert FailuresCounted(codes', b.wrong) by {
      assert forall g | g in b.wrong :: GuessKept(b.codes, g, now);
      CountOnNone(b.wrong, |b.codes|);
    }
    assert RightOnce(codes', b.right) by {
      CountOnNone(b.right, |b.codes|);
    }
  }

  lemma IssueKeepsCodes(p: Policy, codes: seq<Code>, now: int, c: Code)
    requires CodesKept(p, codes, now) && p.maxAttempts > 0
    requires c.created == now && c.expires == now + p.ttl && c.failed == 0 && c.maxAttempts == p.maxAttempts
    ensures CodesKept(p, ConsumeAll(codes, now) + [c], now)
  {
    var codes' := ConsumeAll(codes, now) + [c];
    forall i, j | 0 <= i < j < |codes'|
      ensures codes'[i].created <= codes'[j].created
    {
      assert codes'[i].created == codes[i].created <= now;
      assert j < |codes| ==> codes'[j].created == codes[j].created;
    }
  }

  lemma IssueKeepsGuesses(p: Policy, codes: seq<Code>, wrong: seq<Guess>, now: int, c: Code)
    requires GuessesKept(codes, wrong, now) && c.created == now
    ensures GuessesKept(ConsumeAll(codes, now) + [c], wrong, now)
  {
    var codes' := ConsumeAll(codes, now) + [c];
    forall g | g in wrong
      ensures GuessKept(codes', g, now)
    {
      assert GuessKept(codes, g, now);
      assert codes'[g.code] == Consume(codes[g.code], now);
      assert g.code + 1 < |codes| ==> codes'[g.code + 1].created == codes[g.code + 1].created;
    }
  }

  lemma {:induction false} CompareKeeps(p: Policy, b: Book, i: nat, now: int, submitted: string)
    requires Kept(p, b, now) && i < |b.codes| && b.codes[i].consumed == None
    ensures Kept(p, Compare(b, i, now, submitted).0, now)
  {
    assert i == |b.codes| - 1;
    var b', outcome := Compare(b, i, now, submitted).0, Compare(b, i, now, submitted).1;
    var c := b'.codes[i];
    Compared(b, i, now, submitted);
    CompareKeepsCodes(p, b.codes, i, now, c);
    CompareKeepsGuesses(b.codes, b.wrong, i, now, c);
    CompareKeepsFailures(b.codes, b.wrong, i, now, c);
    ConsumedKeepsRight(b.codes, b.right, i, c);
    if c.consumed.Some? {
      GuessKeepsRight(b.codes, b.right, i, now, c);
    }
  }

  /** A comparison touches the counter and the mark of one code, and records the guess where one was made. */
  lemma {:induction false} Compared(b: Book, i: nat, now: int, submitted: string)
    requires i < |b.codes|
    ensures var b' := Compare(b, i, now, submitted).0;
      && |b'.codes| == |b.codes|
      && var c, d := b.codes[i], b'.codes[i];
      && b'.codes == b.codes[i := d] && d == c.(failed := d.failed, consumed := d.consumed)
      && (b'.wrong == b.wrong ==> d.failed == c.failed && d.consumed == Some(now))
      && (b'.wrong != b.wrong ==> b'.wrong == b.wrong + [Guess(i, now)] && b'.right == b.right)
      && (b'.wrong != b.wrong ==> d.failed == c.failed + 1 <= c.maxAttempts && now < c.expires)
      && (b'.wrong != b.wrong && d.consumed == None ==> d.failed < c.maxAttempts)
      && (b'.right == b.right || b'.right == b.right + [Guess(i, now)])
  {
  }

  lemma CompareKeepsCodes(p: Policy, codes: seq<Code>, i: nat, now: int, c: Code)
    requires CodesKept(p, codes, now) && i == |codes| - 1
    requires c == codes[i].(failed := c.failed, consumed := c.consumed)
    requires c.failed <= p.maxAttempts && (c.consumed == None ==> c.failed < p.maxAttempts)
    ensures CodesKept(p, codes[i := c], now)
  {
    var codes' := codes[i := c];
    assert forall j | 0 <= j < |codes| :: codes'[j].created == codes[j].created;
  }

  lemma CompareKeepsGuesses(codes: seq<Code>, wrong: seq<Guess>, i: nat, now: int, c: Code)
    requires GuessesKept(codes, wrong, now) && i == |codes| - 1
    requires c == codes[i].(failed := c.failed, consumed := c.consumed)
    ensures GuessesKept(codes[i := c], wrong, now)
    ensures codes[i].created <= now < codes[i].expires ==> GuessesKept(codes[i := c], wrong + [Guess(i, now)], now)
  {
    var codes' := codes[i := c];
    forall g | g in wrong
      ensures GuessKept(codes', g, now)
    {
      assert GuessKept(codes, g, now);
    }
  }

  lemma {:induction false} CompareKeepsFailures(codes: seq<Code>, wrong: seq<Guess>, i: nat, now: int, c: Code)
    requires FailuresCounted(codes, wrong) && i < |codes|
    ensures c.failed == codes[i].failed ==> FailuresCounted(codes[i := c], wrong)
    ensures c.failed == codes[i].failed + 1 ==> FailuresCounted(codes[i := c], wrong + [Guess(i, now)])
  {
    forall j | 0 <= j < |codes|
      ensures CountOn(wrong + [Guess(i, now)], j) == CountOn(wrong, j) + if i == j then 1 else 0
    {
      CountOnAppend(wrong, Guess(i, now), j);
    }
  }

  lemma ConsumedKeepsRight(codes: seq<Code>, right: seq<Guess>, i: nat, c: Code)
    requires RightOnce(codes, right) && i < |codes| && codes[i].consumed == None
    ensures RightOnce(codes[i := c], right)
  {
  }

  lemma GuessKeepsRight(codes: seq<Code>, right: seq<Guess>, i: nat, now: int, c: Code)
    requires RightOnce(codes, right) && i < |codes| && codes[i].consumed == None && c.consumed.Some?
    ensures RightOnce(codes[i := c], right + [Guess(i, now)])
  {
    forall j | 0 <= j < |codes|
      ensures CountOn(right + [Guess(i, now)], j) == CountOn(right, j) + if i == j then 1 else 0
    {
      CountOnAppend(right, Guess(i, now), j);
    }
  }

  lemma ApplyKeeps(p: Policy, b: Book, e: Event)
    requires Kept(p, b, e.time) && p.maxAttempts > 0
    ensures Kept(p, Apply(p, b, e), e.time)
  {
    match e.request
    case Issue(open, target, secret) => IssueKeeps(p, b, e.time, open, target, secret);
    case Verify(open, target, submitted) =>
      NewestIsLive(b.codes, target);
      if open && !AttemptBudgetExhausted(p, b.codes, e.time) && Newest(b.codes, target).Some? {
        CompareKeeps(p, b, Newest(b.codes, target).value, e.time, submitted);
      }
  }

  lemma PrefixInOrder(events: seq<Event>, n: nat)
    requires InOrder(events) && n < |events|
    ensures InOrder(events[..n])
    ensures forall e | e in events[..n + 1] :: e.time <= events[n].time
    ensures forall e | e in events[..n] :: e.time <= events[n].time
  {
    forall e | e in events[..n + 1]
      ensures e.time <= events[n].time
    {
      var i :| 0 <= i < n + 1 && events[i] == e;
    }
  }

  lemma {:induction false} RunKeeps(p: Policy, events: seq<Event>, now: int)
    requires InOrder(events) && p.maxAttempts > 0 && forall e | e in events :: e.time <= now
    ensures Kept(p, Run(p, events), now)
  {
    if events != [] {
      var last := events[|events| - 1];
      assert last in events;
      PrefixInOrder(events, |events| - 1);
      RunKeeps(p, events[..|events| - 1], last.time);
      ApplyKeeps(p, Run(p, events[..|events| - 1]), last);
      KeptLater(p, Run(p, events), last.time, now);
    }
  }

  /**
   * At every moment of a run at most one code, the newest, is unconsumed; it has
   * attempts left; and every code is answered right at most once.
   */
  lemma OneLiveCode(p: Policy, events: seq<Event>)
    requires InOrder(events) && p.maxAttempts > 0
    ensures var b := Run(p, events);
      && (forall i | 0 <= i < |b.codes| && b.codes[i].consumed == None ::
           i == |b.codes| - 1 && b.codes[i].failed < p.maxAttempts)
      && (forall i | 0 <= i < |b.codes| :: b.codes[i].failed <= p.maxAttempts && CountOn(b.right, i) <= 1)
  {
    if events != [] {
      var n := |events| - 1;
      PrefixInOrder(events, n);
      assert events[..n + 1] == events;
      RunKeeps(p, events, events[n].time);
    }
  }

  // ---------------------------------------------------------------- counting guesses

  /** Wrong guesses in the closed interval. */
  function WrongIn(guesses: seq<Guess>, from: int, to: int): nat {
    if guesses == [] then 0
    else WrongIn(guesses[..|guesses| - 1], from, to) + if from <= guesses[|guesses| - 1].time <= to then 1 else 0
  }

  /** Guesses on the first `n` codes that were created at `since` or later. */
  function OnRecent(codes: seq<Code>, n: nat, guesses: seq<Guess>, since: int): nat
    requires n <= |codes|
  {
    if n == 0 then 0
    else
      OnRecent(codes, n - 1, guesses, since) + if codes[n - 1].created >= since then CountOn(guesses, n - 1) else 0
  }

  lemma {:induction false} FailedIsOnRecent(codes: seq<Code>, n: nat, guesses: seq<Guess>, since: int)
    requires n <= |codes| && forall i | 0 <= i < n :: codes[i].failed == CountOn(guesses, i)
    ensures FailedSince(codes[..n], since) == OnRecent(codes, n, guesses, since)
  {
    if n > 0 {
      assert codes[..n][..n - 1] == codes[..n - 1];
      FailedIsOnRecent(codes, n - 1, guesses, since);
    }
  }

  lemma {:induction false} OnRecentAppend(codes: seq<Code>, n: nat, guesses: seq<Guess>, g: Guess, since: int)
    requires n <= |codes| && g.code < |codes|
    ensures OnRecent(codes, n, guesses + [g], since)
      == OnRecent(codes, n, guesses, since) + if g.code < n && codes[g.code].created >= since then 1 else 0
  {
    if n > 0 {
      OnRecentAppend(codes, n - 1, guesses, g, since);
      CountOnAppend(guesses, g, n - 1);
    }
  }

  /** Guesses whose code was created before `since`, from time `from` on. */
  function OnOld(codes: seq<Code>, guesses: seq<Guess>, from: int, since: int): nat
    requires forall g | g in guesses :: g.code < |codes|
  {
    if guesses == [] then 0
    else
      var g := guesses[|guesses| - 1];
      assert g in guesses;
      OnOld(codes, guesses[..|guesses| - 1], from, since)
      + if from <= g.time && codes[g.code].created < since then 1 else 0
  }

  /** A guess from `from` on is on a recent code or on an old one. */
  lemma {:induction false} SplitGuesses(codes: seq<Code>, guesses: seq<Guess>, from: int, to: int, since: int)
    requires forall g | g in guesses :: g.code < |codes|
    ensures WrongIn(guesses, from, to) <= OnRecent(codes, |codes|, guesses, since) + OnOld(codes, guesses, from, since)
  {
    if guesses != [] {
      var init, g := guesses[..|guesses| - 1], guesses[|guesses| - 1];
      assert g in guesses && guesses == init + [g];
      SplitGuesses(codes, init, from, to, since);
      OnRecentAppend(codes, |codes|, init, g, since);
    } else {
      NoneRecent(codes, |codes|, since);
    }
  }

  lemma {:induction false} NoneRecent(codes: seq<Code>, n: nat, since: int)
    requires n <= |codes|
    ensures OnRecent(codes, n, [], since) == 0
  {
    if n > 0 {
      NoneRecent(codes, n - 1, since);
    }
  }

  /** No old guesses when every guess from `from` on is on a recent code. */
  lemma {:induction false} NoneOld(codes: seq<Code>, guesses: seq<Guess>, from: int, since: int)
    requires forall g | g in guesses :: g.code < |codes| && (from <= g.time ==> codes[g.code].created >= since)
    ensures OnOld(codes, guesses, from, since) == 0
  {
    if guesses != [] {
      var g := guesses[|guesses| - 1];
      assert g in guesses;
      NoneOld(codes, guesses[..|guesses| - 1], from, since);
    }
  }

  /** The old guesses from `from` on are all on one code. */
  lemma {:induction false} OldOnOneCode(codes: seq<Code>, guesses: seq<Guess>, from: int, since: int, c: nat)
    requires forall g | g in guesses :: g.code < |codes|
    requires forall g | g in guesses && from <= g.time && codes[g.code].created < since :: g.code == c
    ensures OnOld(codes, guesses, from, since) <= CountOn(guesses, c)
  {
    if guesses != [] {
      var g := guesses[|guesses| - 1];
      assert g in guesses;
      OldOnOneCode(codes, guesses[..|guesses| - 1], from, since, c);
    }
  }

  /** A guess after `from` on a code created before `from` is on the newest such code. */
  lemma OldGuessesShareCode(p: Policy, b: Book, now: int, from: int, since: int, g: Guess, h: Guess)
    requires Kept(p, b, now) && g in b.wrong && h in b.wrong && since <= from
    requires from <= g.time && from <= h.time && b.codes[g.code].created < since && b.codes[h.code].created < since
    ensures g.code == h.code
  {
    assert GuessKept(b.codes, g, now) && GuessKept(b.codes, h, now);
    assert forall i, j | 0 <= i <= j < |b.codes| :: b.codes[i].created <= b.codes[j].created;
  }

  /** At most one code's attempts can have slipped out of the window. */
  lemma FewOld(p: Policy, b: Book, now: int, from: int, since: int)
    requires Kept(p, b, now) && since <= from
    ensures OnOld(b.codes, b.wrong, from, since) <= p.maxAttempts
  {
    if g :| g in b.wrong && from <= g.time && b.codes[g.code].created < since {
      forall h | h in b.wrong && from <= h.time && b.codes[h.code].created < since
        ensures h.code == g.code
      {
        OldGuessesShareCode(p, b, now, from, since, g, h);
      }
      OldOnOneCode(b.codes, b.wrong, from, since, g.code);
      assert GuessKept(b.codes, g, now);
    } else {
      NoneOld(b.codes, b.wrong, from, since);
    }
  }

  // ---------------------------------------------------------------- the wall-clock bounds

  /** The budget allows one more comparison: the interval that ends now is not full yet. */
  lemma RoomNow(p: Policy, b: Book, now: int, from: int)
    requires Kept(p, b, now) && !AttemptBudgetExhausted(p, b.codes, now) && from >= now - p.window
    ensures WrongIn(b.wrong, from, now) < p.maxFailures + p.maxAttempts
    ensures from >= now - p.window + p.ttl - 1 ==> WrongIn(b.wrong, from, now) < p.maxFailures
  {
    var since := now - p.window;
    assert b.codes[..|b.codes|] == b.codes;
    FailedIsOnRecent(b.codes, |b.codes|, b.wrong, since);
    SplitGuesses(b.codes, b.wrong, from, now, since);
    FewOld(p, b, now, from, since);
    if from >= now - p.window + p.ttl - 1 {
      forall g | g in b.wrong && from <= g.time
        ensures b.codes[g.code].created >= since
      {
        assert GuessKept(b.codes, g, now);
      }
      NoneOld(b.codes, b.wrong, from, since);
    }
  }

  /** Wrong guesses grow by at most one, at the time of the request, and only within the budget. */
  lemma ApplyGuesses(p: Policy, b: Book, e: Event)
    ensures var b' := Apply(p, b, e);
      b'.wrong == b.wrong
      || (!AttemptBudgetExhausted(p, b.codes, e.time) && exists i: nat :: b'.wrong == b.wrong + [Guess(i, e.time)])
  {
  }

  lemma {:induction false} WrongInAppend(guesses: seq<Guess>, g: Guess, from: int, to: int)
    ensures WrongIn(guesses + [g], from, to) == WrongIn(guesses, from, to) + if from <= g.time <= to then 1 else 0
  {
    assert (guesses + [g])[..|guesses|] == guesses;
  }

  lemma {:induction false} NothingLater(guesses: seq<Guess>, from: int, to: int, now: int)
    requires now <= to && forall g | g in guesses :: g.time <= now
    ensures WrongIn(guesses, from, to) == WrongIn(guesses, from, now)
  {
    if guesses != [] {
      assert guesses[|guesses| - 1] in guesses;
      NothingLater(guesses[..|guesses| - 1], from, to, now);
    }
  }

  lemma ApplyBounded(p: Policy, b: Book, e: Event, from: int, to: int, bound: nat)
    requires Kept(p, b, e.time) && WrongIn(b.wrong, from, to) <= bound
    requires to - from <= p.window
    requires bound == p.maxFailures + p.maxAttempts || (bound == p.maxFailures && to - from <= p.window - p.ttl + 1)
    ensures WrongIn(Apply(p, b, e).wrong, from, to) <= bound
  {
    ApplyGuesses(p, b, e);
    var b' := Apply(p, b, e);
    if b'.wrong != b.wrong && from <= e.time <= to {
      var i: nat :| b'.wrong == b.wrong + [Guess(i, e.time)];
      WrongInAppend(b.wrong, Guess(i, e.time), from, to);
      forall g | g in b.wrong
        ensures g.time <= e.time
      {
        assert GuessKept(b.codes, g, e.time);
      }
      NothingLater(b.wrong, from, to, e.time);
      RoomNow(p, b, e.time, from);
    } else if b'.wrong != b.wrong {
      var i: nat :| b'.wrong == b.wrong + [Guess(i, e.time)];
      WrongInAppend(b.wrong, Guess(i, e.time), from, to);
    }
  }

  /**
   * Wrong guesses against a live code, over any run: at most the failure budget
   * plus one code's attempts in any interval as long as the window, and at most
   * the failure budget in any interval shorter by a code's lifetime.
   */
  lemma {:induction false} GuessBounds(p: Policy, events: seq<Event>, from: int, to: int)
    requires InOrder(events) && p.maxAttempts > 0 && to - from <= p.window
    ensures WrongIn(Run(p, events).wrong, from, to) <= p.maxFailures + p.maxAttempts
    ensures to - from <= p.window - p.ttl + 1 ==> WrongIn(Run(p, events).wrong, from, to) <= p.maxFailures
  {
    if events != [] {
      var init, last := events[..|events| - 1], events[|events| - 1];
      PrefixInOrder(events, |events| - 1);
      GuessBounds(p, init, from, to);
      RunKeeps(p, init, last.time);
      ApplyBounded(p, Run(p, init), last, from, to, p.maxFailures + p.maxAttempts);
      if to - from <= p.window - p.ttl + 1 {
        ApplyBounded(p, Run(p, init), last, from, to, p.maxFailures);
      }
    }
  }

  /** With the shipped constants: 10 in any 50 minutes, 15 in any 60. */
  lemma ShippedGuessBounds(events: seq<Event>, from: int)
    requires InOrder(events)
    ensures WrongIn(Run(OTP, events).wrong, from, from + 50 * MINUTE) <= 10
    ensures WrongIn(Run(OTP, events).wrong, from, from + 60 * MINUTE) <= 15
  {
    GuessBounds(OTP, events, from, from + 50 * MINUTE);
    GuessBounds(OTP, events, from, from + 60 * MINUTE);
  }

  // ---------------------------------------------------------------- the bounds are exact

  function Repeat<T>(x: T, k: nat): (r: seq<T>)
    ensures |r| == k && forall i | 0 <= i < k :: r[i] == x
  {
    if k == 0 then [] else Repeat(x, k - 1) + [x]
  }

  lemma RepeatNext<T>(s: seq<T>, x: T, k: nat)
    requires k > 0
    ensures s + Repeat(x, k) == s + Repeat(x, k - 1) + [x]
  {
  }

  const TRY := Verify(true, "", "000000")
  const SEND := Issue(true, "", "123456")

  lemma RunAppend(p: Policy, events: seq<Event>, e: Event)
    ensures Run(p, events + [e]) == Apply(p, Run(p, events), e)
  {
    assert (events + [e])[..|events|] == events;
  }

  lemma {:induction false} FailedSplit(codes: seq<Code>, c: Code, since: int)
    ensures FailedSince(codes + [c], since) == FailedSince(codes, since) + if c.created >= since then c.failed else 0
  {
    assert (codes + [c])[..|codes|] == codes;
  }

  /** A code after `k` wrong guesses at one moment. */
  function Struck(c: Code, k: nat, now: int): Code {
    c.(failed := k, consumed := if k >= c.maxAttempts then Some(now) else None)
  }

  /** One wrong guess within the budget. */
  lemma {:induction false} Strike(codes: seq<Code>, wrong: seq<Guess>, c: Code, t: int, k: nat)
    requires k < c.maxAttempts && c.target == "" && c.secret == "123456" && c.expires > t
    requires FailedSince(codes, t - OTP.window) + k < OTP.maxFailures
    ensures Apply(OTP, Book(codes + [Struck(c, k, t)], wrong, []), Event(t, TRY))
      == Book(codes + [Struck(c, k + 1, t)], wrong + [Guess(|codes|, t)], [])
  {
    var d, b := Struck(c, k, t), Book(codes + [Struck(c, k, t)], wrong, []);
    FailedSplit(codes, d, t - OTP.window);
    assert b.codes[|codes|] == d && Newest(b.codes, "") == Some(|codes|);
    assert TRY.submitted != c.secret;
    assert b.codes[|codes| := Struck(c, k + 1, t)] == codes + [Struck(c, k + 1, t)];
    assert Apply(OTP, b, Event(t, TRY)) == Compare(b, |codes|, t, TRY.submitted).0;
  }

  lemma {:induction false} StrikeRun(events: seq<Event>, codes: seq<Code>, wrong: seq<Guess>, c: Code, t: int, k: nat)
    requires Run(OTP, events) == Book(codes + [Struck(c, k, t)], wrong, [])
    requires k < c.maxAttempts && c.target == "" && c.secret == "123456" && c.expires > t
    requires FailedSince(codes, t - OTP.window) + k < OTP.maxFailures
    ensures Run(OTP, events + [Event(t, TRY)]) == Book(codes + [Struck(c, k + 1, t)], wrong + [Guess(|codes|, t)], [])
  {
    RunAppend(OTP, events, Event(t, TRY));
    Strike(codes, wrong, c, t, k);
  }

  /** A fresh code that has already taken `k` wrong guesses takes one more. */
  lemma BurstNext(events: seq<Event>, codes: seq<Code>, wrong: seq<Guess>, c: Code, t: int, k: nat)
    requires Run(OTP, events + Repeat(Event(t, TRY), k))
      == Book(codes + [Struck(c, k, t)], wrong + Repeat(Guess(|codes|, t), k), [])
    requires c.consumed == None && c.failed == 0 && c.target == "" && c.secret == "123456" && c.maxAttempts == 5
    requires c.expires > t && FailedSince(codes, t - OTP.window) <= 5 && k < 5
    ensures Run(OTP, events + Repeat(Event(t, TRY), k + 1))
      == Book(codes + [Struck(c, k + 1, t)], wrong + Repeat(Guess(|codes|, t), k + 1), [])
  {
    RepeatNext(events, Event(t, TRY), k + 1);
    RepeatNext(wrong, Guess(|codes|, t), k + 1);
    StrikeRun(events + Repeat(Event(t, TRY), k), codes, wrong + Repeat(Guess(|codes|, t), k), c, t, k);
  }

  /** A fresh code takes all its five wrong guesses in one moment when half the failure budget is left. */
  lemma {:induction false} Burst(events: seq<Event>, codes: seq<Code>, wrong: seq<Guess>, c: Code, t: int, k: nat)
    requires Run(OTP, events) == Book(codes + [c], wrong, [])
    requires c.consumed == None && c.failed == 0 && c.target == "" && c.secret == "123456" && c.maxAttempts == 5
    requires c.expires > t && FailedSince(codes, t - OTP.window) <= 5 && k <= 5
    ensures Run(OTP, events + Repeat(Event(t, TRY), k))
      == Book(codes + [Struck(c, k, t)], wrong + Repeat(Guess(|codes|, t), k), [])
  {
    if k == 0 {
      var e, g := Event(t, TRY), Guess(|codes|, t);
      assert events + Repeat(e, 0) == events && wrong + Repeat(g, 0) == wrong && Struck(c, 0, t) == c;
    } else {
      Burst(events, codes, wrong, c, t, k - 1);
      BurstNext(events, codes, wrong, c, t, k - 1);
    }
  }

  /** Issuing on top of one spent code. */
  lemma Resend(events: seq<Event>, b: Book, t: int)
    requires Run(OTP, events) == b && (forall c | c in b.codes :: c.consumed.Some?) && |b.codes| < 5
    ensures Run(OTP, events + [Event(t, SEND)]) == b.(codes := b.codes + [NewCode(OTP, t, "", "123456")])
  {
    RunAppend(OTP, events, Event(t, SEND));
    CountAtMost(b.codes, t - OTP.window);
    assert ConsumeAll(b.codes, t) == b.codes by {
      assert forall i | 0 <= i < |b.codes| :: b.codes[i] in b.codes && ConsumeAll(b.codes, t)[i] == b.codes[i];
    }
  }

  lemma {:induction false} CountAtMost(codes: seq<Code>, since: int)
    ensures CountSince(codes, since) <= |codes|
  {
    if codes != [] {
      CountAtMost(codes[..|codes| - 1], since);
    }
  }

  lemma {:induction false} WrongInAll(wrong: seq<Guess>, more: seq<Guess>, from: int, to: int)
    requires forall i | 0 <= i < |more| :: from <= more[i].time <= to
    ensures WrongIn(wrong + more, from, to) == WrongIn(wrong, from, to) + |more|
  {
    if more == [] {
      assert wrong + more == wrong;
    } else {
      var less := more[..|more| - 1];
      assert wrong + more == (wrong + less) + [more[|more| - 1]];
      WrongInAll(wrong, less, from, to);
      WrongInAppend(wrong + less, more[|more| - 1], from, to);
    }
  }

  /** A code is sent at `sent` and struck five times at `t`. */
  function Round(sent: int, t: int): seq<Event> {
    [Event(sent, SEND)] + Repeat(Event(t, TRY), 5)
  }

  function Spent(sent: int, t: int): Code {
    Struck(NewCode(OTP, sent, "", "123456"), 5, t)
  }

  lemma RoundRuns(events: seq<Event>, codes: seq<Code>, wrong: seq<Guess>, sent: int, t: int)
    requires Run(OTP, events) == Book(codes, wrong, [])
    requires (forall c | c in codes :: c.consumed.Some?) && |codes| < 5
    requires t < sent + OTP.ttl && FailedSince(codes, t - OTP.window) <= 5
    ensures Run(OTP, events + Round(sent, t))
      == Book(codes + [Spent(sent, t)], wrong + Repeat(Guess(|codes|, t), 5), [])
  {
    Resend(events, Book(codes, wrong, []), sent);
    Burst(events + [Event(sent, SEND)], codes, wrong, NewCode(OTP, sent, "", "123456"), t, 5);
    assert events + Round(sent, t) == events + [Event(sent, SEND)] + Repeat(Event(t, TRY), 5);
  }

  /** Three codes: struck at the end of the first one's life, just after, and just after the first left the window. */
  function Hammer(): seq<Event> {
    Round(0, OTP.ttl - 1) + Round(OTP.ttl, OTP.ttl) + Round(OTP.window + 1, OTP.window + 1)
  }

  lemma HammerInOrder()
    ensures InOrder(Hammer())
  {
    var h := Hammer();
    assert forall i | 0 <= i < |h| ::
      h[i].time == if i < 1 then 0 else if i < 6 then OTP.ttl - 1 else if i < 12 then OTP.ttl else OTP.window + 1;
  }

  lemma FirstRounds()
    ensures Run(OTP, Round(0, OTP.ttl - 1) + Round(OTP.ttl, OTP.ttl))
      == Book([Spent(0, OTP.ttl - 1)] + [Spent(OTP.ttl, OTP.ttl)],
              Repeat(Guess(0, OTP.ttl - 1), 5) + Repeat(Guess(1, OTP.ttl), 5), [])
  {
    var first, a, wrongA := Round(0, OTP.ttl - 1), Spent(0, OTP.ttl - 1), Repeat(Guess(0, OTP.ttl - 1), 5);
    RoundRuns([], [], [], 0, OTP.ttl - 1);
    assert [] + first == first && [] + [a] == [a] && [] + wrongA == wrongA;
    FailedSplit([], a, OTP.ttl - OTP.window);
    RoundRuns(first, [a], wrongA, OTP.ttl, OTP.ttl);
  }

  lemma HammerRuns()
    ensures Run(OTP, Hammer()).wrong
      == Repeat(Guess(0, OTP.ttl - 1), 5) + Repeat(Guess(1, OTP.ttl), 5) + Repeat(Guess(2, OTP.window + 1), 5)
  {
    var second, a, b := Round(0, OTP.ttl - 1) + Round(OTP.ttl, OTP.ttl), Spent(0, OTP.ttl - 1), Spent(OTP.ttl, OTP.ttl);
    FirstRounds();
    assert [] + [a] == [a];
    FailedSplit([], a, 1);
    FailedSplit([a], b, 1);
    RoundRuns(second, [a] + [b], Repeat(Guess(0, OTP.ttl - 1), 5) + Repeat(Guess(1, OTP.ttl), 5), OTP.window + 1,
      OTP.window + 1);
  }

  lemma HammerCounts(from: int, to: int)
    requires from <= OTP.ttl - 1 && to >= OTP.window + 1
    ensures WrongIn(Run(OTP, Hammer()).wrong, from, to) == 15
  {
    HammerRuns();
    var a, b, c := Guess(0, OTP.ttl - 1), Guess(1, OTP.ttl), Guess(2, OTP.window + 1);
    var all := Repeat(a, 5) + Repeat(b, 5) + Repeat(c, 5);
    assert [] + all == all;
    WrongInAll([], all, from, to);
  }

  ghost predicate AtMost(n: nat, events: seq<Event>, from: int, length: int) {
    WrongIn(Run(OTP, events).wrong, from, from + length) <= n
  }

  /**
   * The failure budget of 10 is a bound on wrong guesses in an interval of a given
   * length exactly up to 50 minutes and one microsecond; a longer interval can hold 15.
   */
  lemma BudgetHoldsExactly(length: int)
    ensures (forall events, from | InOrder(events) :: AtMost(10, events, from, length)) <==> length <= 50 * MINUTE + 1
  {
    if length <= 50 * MINUTE + 1 {
      forall events, from | InOrder(events)
        ensures AtMost(10, events, from, length)
      {
        GuessBounds(OTP, events, from, from + length);
      }
    } else {
      HammerInOrder();
      HammerCounts(OTP.ttl - 1, OTP.ttl - 1 + length);
      assert !AtMost(10, Hammer(), OTP.ttl - 1, length);
    }
  }

  /** Fifteen is reached within one hour-long window, so 15 is the least bound there. */
  lemma HourBoundIsLeast(n: nat)
    ensures (forall events, from | InOrder(events) :: AtMost(n, events, from, 60 * MINUTE)) <==> n >= 15
  {
    if n >= 15 {
      forall events, from | InOrder(events)
        ensures AtMost(n, events, from, 60 * MINUTE)
      {
        GuessBounds(OTP, events, from, from + 60 * MINUTE);
      }
    } else {
      HammerInOrder();
      HammerCounts(OTP.ttl - 1, OTP.ttl - 1 + 60 * MINUTE);
      assert !AtMost(n, Hammer(), OTP.ttl - 1, 60 * MINUTE);
    }
  }

  // ---------------------------------------------------------------- issued codes

  /** Codes created in the closed interval. */
  function CreatedIn(codes: seq<Code>, from: int, to: int): nat {
    if codes == [] then 0
    else CreatedIn(codes[..|codes| - 1], from, to) + if from <= codes[|codes| - 1].created <= to then 1 else 0
  }

  lemma {:induction false} CreatedSince(codes: seq<Code>, from: int, to: int, since: int)
    requires since <= from
    ensures CreatedIn(codes, from, to) <= CountSince(codes, since)
  {
    if codes != [] {
      CreatedSince(codes[..|codes| - 1], from, to, since);
    }
  }

  lemma {:induction false} SameCreation(a: seq<Code>, b: seq<Code>, from: int, to: int)
    requires |a| == |b| && forall i | 0 <= i < |a| :: a[i].created == b[i].created
    ensures CreatedIn(a, from, to) == CreatedIn(b, from, to)
  {
    if a != [] {
      SameCreation(a[..|a| - 1], b[..|b| - 1], from, to);
    }
  }

  lemma ApplyIssues(p: Policy, b: Book, e: Event, from: int, to: int)
    requires CreatedIn(b.codes, from, to) <= p.maxIssues && to - from <= p.window
    ensures CreatedIn(Apply(p, b, e).codes, from, to) <= p.maxIssues
  {
    match e.request
    case Issue(open, target, secret) =>
      if open && !IssueBudgetExhausted(p, b.codes, e.time) {
        var consumed := ConsumeAll(b.codes, e.time);
        SameCreation(b.codes, consumed, from, to);
        var issued := consumed + [NewCode(p, e.time, target, secret)];
        assert issued[..|consumed|] == consumed;
        if from <= e.time <= to {
          CreatedSince(b.codes, from, to, e.time - p.window);
        }
        assert CreatedIn(issued, from, to) == CreatedIn(consumed, from, to) + if from <= e.time <= to then 1 else 0;
      }
    case Verify(open, target, submitted) =>
      NewestIsLive(b.codes, target);
      SameCreation(b.codes, Apply(p, b, e).codes, from, to);
  }

  /** At most the issue budget of codes is created in any interval as long as the window. */
  lemma {:induction false} IssueBound(p: Policy, events: seq<Event>, from: int, to: int)
    requires to - from <= p.window
    ensures CreatedIn(Run(p, events).codes, from, to) <= p.maxIssues
  {
    if events != [] {
      var init, last := events[..|events| - 1], events[|events| - 1];
      IssueBound(p, init, from, to);
      ApplyIssues(p, Run(p, init), last, from, to);
    }
  }

  // ---------------------------------------------------------------- what an answer means

  predicate Answers(c: Code, now: int, target: string, submitted: string) {
    c.consumed == None && c.target == target && c.expires > now && c.secret == submitted
  }

  /**
   * In every reachable book a submission succeeds exactly when the failure budget
   * is not used up and it matches an unconsumed, unexpired code for the target; and
   * exactly the successes are recorded as right answers.
   */
  lemma RightAnswer(p: Policy, events: seq<Event>, now: int, open: bool, target: string, submitted: string)
    requires InOrder(events) && p.maxAttempts > 0 && forall e | e in events :: e.time <= now
    ensures var b, r := Run(p, events), VerifyCode(p, Run(p, events), now, open, target, submitted);
      && (r.1 == Verified <==>
          (open && !AttemptBudgetExhausted(p, b.codes, now) && exists c ::
            c in b.codes && Answers(c, now, target, submitted)))
      && (r.1 == Verified <==> r.0.right != b.right)
      && (r.1 == Verified ==> r.0.wrong == b.wrong && forall c | c in r.0.codes :: c.consumed.Some?)
  {
    var b, r := Run(p, events), VerifyCode(p, Run(p, events), now, open, target, submitted);
    RunKeeps(p, events, now);
    NewestIsLive(b.codes, target);
    if r.1 == Verified {
      var i := Newest(b.codes, target).value;
      assert Answers(b.codes[i], now, target, submitted);
      assert r.0.codes == b.codes[i := b.codes[i].(consumed := Some(now))];
    } else if c :| c in b.codes && Answers(c, now, target, submitted) {
      var i :| 0 <= i < |b.codes| && b.codes[i] == c;
      assert Newest(b.codes, target) == Some(i);
    }
  }

  lemma {:induction false} AllCreatedBy(codes: seq<Code>, since: int, now: int)
    requires forall c | c in codes :: c.created <= now
    ensures CountSince(codes, since) == CreatedIn(codes, since, now)
  {
    if codes != [] {
      assert codes[|codes| - 1] in codes;
      AllCreatedBy(codes[..|codes| - 1], since, now);
    }
  }

  lemma NewCodeVerifies(p: Policy, b: Book, now: int, open: bool, target: string, secret: string, submitted: string)
    requires p.ttl > 0 && p.maxAttempts > 0 && IssueCode(p, b, now, open, target, secret).1 == Issued
    ensures var b' := IssueCode(p, b, now, open, target, secret).0;
      (VerifyCode(p, b', now, true, target, submitted).1 == Verified) ==
      (!AttemptBudgetExhausted(p, b'.codes, now) && submitted == secret)
  {
    var b' := IssueCode(p, b, now, open, target, secret).0;
    assert b'.codes[|b.codes|] == NewCode(p, now, target, secret);
    assert Newest(b'.codes, target) == Some(|b.codes|);
  }

  /**
   * In every reachable book a request for a code is granted exactly when fewer codes than
   * the budget were created in the closed window before it, and then only the new code is unconsumed.
   */
  lemma GrantedCode(p: Policy, events: seq<Event>, now: int, open: bool, target: string, secret: string)
    requires InOrder(events) && p.maxAttempts > 0 && forall e | e in events :: e.time <= now
    ensures var b, r := Run(p, events), IssueCode(p, Run(p, events), now, open, target, secret);
      && (r.1 == Issued <==> open && CreatedIn(b.codes, now - p.window, now) < p.maxIssues)
      && (r.1 != Issued ==> r.0 == b)
      && (r.1 == Issued && p.ttl > 0 ==>
            forall submitted :: VerifyCode(p, r.0, now, true, target, submitted).1 == Verified
              <==> !AttemptBudgetExhausted(p, r.0.codes, now) && submitted == secret)
  {
    var b, r := Run(p, events), IssueCode(p, Run(p, events), now, open, target, secret);
    RunKeeps(p, events, now);
    AllCreatedBy(b.codes, now - p.window, now);
    if r.1 == Issued && p.ttl > 0 {
      forall submitted
        ensures VerifyCode(p, r.0, now, true, target, submitted).1 == Verified
          <==> !AttemptBudgetExhausted(p, r.0.codes, now) && submitted == secret
      {
        NewCodeVerifies(p, b, now, open, target, secret, submitted);
      }
    }
  }

  /**
   * What a submission leaves: nothing changes unless the newest code is open for the target. Then that code alone is
   * used up by the right secret, by being too late, or by the last wrong guess it allows; any earlier wrong guess is
   * counted.
   */
  ghost predicate LeftBySubmission(
      p: Policy, b: Book, now: int, open: bool, target: string, submitted: string, b': Book) {
    var n := |b.codes| - 1;
    if !open || FailedSince(b.codes, now - p.window) >= p.maxFailures || n < 0
      || b.codes[n].consumed.Some? || b.codes[n].target != target
    then b' == b
    else
      var c := b.codes[n];
      if c.expires <= now then b' == b.(codes := b.codes[n := c.(consumed := Some(now))])
      else if c.secret == submitted then
        b' == b.(codes := b.codes[n := c.(consumed := Some(now))], right := b.right + [Guess(n, now)])
      else
        var used := if c.failed + 1 == p.maxAttempts then Some(now) else None;
        b' == b.(codes := b.codes[n := c.(failed := c.failed + 1, consumed := used)],
                 wrong := b.wrong + [Guess(n, now)])
  }

  lemma NewestIsLast(p: Policy, codes: seq<Code>, now: int, target: string)
    requires CodesKept(p, codes, now)
    ensures Newest(codes, target) == if codes != [] && codes[|codes| - 1].consumed == None
        && codes[|codes| - 1].target == target then Some(|codes| - 1) else None
  {
    NewestIsLive(codes, target);
  }

  lemma VerifyLeaves(p: Policy, b: Book, now: int, open: bool, target: string, submitted: string)
    requires CodesKept(p, b.codes, now)
    ensures LeftBySubmission(p, b, now, open, target, submitted, VerifyCode(p, b, now, open, target, submitted).0)
  {
    NewestIsLast(p, b.codes, now, target);
  }

  /** Every submission in a reachable book leaves exactly that. */
  lemma SubmissionLeaves(p: Policy, events: seq<Event>, now: int, open: bool, target: string, submitted: string)
    requires InOrder(events) && p.maxAttempts > 0 && forall e | e in events :: e.time <= now
    ensures LeftBySubmission(p, Run(p, events), now, open, target, submitted,
                             Apply(p, Run(p, events), Event(now, Verify(open, target, submitted))))
  {
    RunKeeps(p, events, now);
    VerifyLeaves(p, Run(p, events), now, open, target, submitted);
  }

  /** What a request for a code leaves: over the budget nothing; else the open codes are used up and one is added. */
  ghost predicate LeftByIssue(p: Policy, b: Book, now: int, open: bool, target: string, secret: string, b': Book) {
    if !open || CreatedIn(b.codes, now - p.window, now) >= p.maxIssues then b' == b
    else
      && b'.wrong == b.wrong && b'.right == b.right && |b'.codes| == |b.codes| + 1
      && b'.codes[|b.codes|] == Code(now, now + p.ttl, target, secret, 0, p.maxAttempts, None)
      && forall i | 0 <= i < |b.codes| ::
           b'.codes[i] == b.codes[i].(consumed := if b.codes[i].consumed.Some? then b.codes[i].consumed else Some(now))
  }

  lemma IssueLeaves(p: Policy, events: seq<Event>, now: int, open: bool, target: string, secret: string)
    requires InOrder(events) && p.maxAttempts > 0 && forall e | e in events :: e.time <= now
    ensures LeftByIssue(p, Run(p, events), now, open, target, secret,
                        Apply(p, Run(p, events), Event(now, Issue(open, target, secret))))
  {
    RunKeeps(p, events, now);
    CodeIsAdded(p, Run(p, events), now, open, target, secret);
  }

  lemma CodeIsAdded(p: Policy, b: Book, now: int, open: bool, target: string, secret: string)
    requires CodesKept(p, b.codes, now)
    ensures LeftByIssue(p, b, now, open, target, secret, IssueCode(p, b, now, open, target, secret).0)
  {
    CodesCreatedBy(p, b.codes, now);
  }

  lemma CodesCreatedBy(p: Policy, codes: seq<Code>, now: int)
    requires CodesKept(p, codes, now)
    ensures CreatedIn(codes, now - p.window, now) == CountSince(codes, now - p.window)
  {
    AllCreatedBy(codes, now - p.window, now);
  }
}
