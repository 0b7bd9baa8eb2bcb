/** Where verdicts come from: behind every verdict on a document or on evidence stands the request that gave it. */
module ComplianceProvenance {
  import opened ComplianceModel
  import opened ComplianceTheorems
  import opened ComplianceAnswers

  /** The application before request `i` of a run. */
  ghost function At(start: Application, steps: seq<Step>, i: nat): Application
    requires i <= |steps|
  {
    Run(start, steps[..i])
  }

  lemma AtPrefix(start: Application, steps: seq<Step>, i: nat)
    requires steps != [] && i < |steps|
    ensures At(start, steps[..|steps| - 1], i) == At(start, steps, i)
  {
    assert steps[..|steps| - 1][..i] == steps[..i];
  }

  lemma AtEnd(start: Application, steps: seq<Step>)
    requires steps != []
    ensures At(start, steps, |steps| - 1) == Run(start, steps[..|steps| - 1])
    ensures At(start, steps, |steps|) == Run(start, steps) == After(At(start, steps, |steps| - 1), steps[|steps| - 1])
  {
    assert steps[..|steps|] == steps;
  }

  // ---------------------------------------------------------------- documents

  /** The request that puts a document into this state. */
  ghost predicate Writes(action: Action, t: string, d: Document) {
    match d.status
    case Requested => action == DoRequest(t)
    case Filed => action == DoUpload(t, true)
    case Accepted => action == DoReviewDocument(t, true)
    case Refuted => action == DoReviewDocument(t, false)
  }

  ghost predicate Reads(a: Application, t: string, d: Document) {
    t in a.documents && a.documents[t] == d
  }

  /**
   * Request `i` wrote document `t` as it is now, nothing has changed it since, and a verdict was given on a filed
   * document of a file under review.
   */
  ghost predicate WrittenAt(start: Application, steps: seq<Step>, i: nat, t: string) {
    var d := Run(start, steps).documents;
    && t in d && i < |steps| && Writes(steps[i].action, t, d[t])
    && (forall j | i < j <= |steps| :: Reads(At(start, steps, j), t, d[t]))
    && (d[t].status == Accepted || d[t].status == Refuted ==>
          At(start, steps, i).status in WITH_DESK && Reads(At(start, steps, i), t, Document(Filed, true)))
  }

  /** A request that changes a document is the one its new state names. */
  lemma DocumentWritten(a: Application, s: Step, t: string)
    requires t in After(a, s).documents && !Reads(a, t, After(a, s).documents[t])
    ensures var d := After(a, s).documents[t];
      && Writes(s.action, t, d)
      && (d.status == Accepted || d.status == Refuted ==> a.status in WITH_DESK && Reads(a, t, Document(Filed, true)))
  {
  }

  lemma WrittenLater(start: Application, steps: seq<Step>, i: nat, t: string)
    requires steps != [] && WrittenAt(start, steps[..|steps| - 1], i, t)
    requires Reads(Run(start, steps), t, Run(start, steps[..|steps| - 1]).documents[t])
    ensures WrittenAt(start, steps, i, t)
  {
    var init := steps[..|steps| - 1];
    AtEnd(start, steps);
    AtPrefix(start, steps, i);
    forall j | i < j <= |steps|
      ensures Reads(At(start, steps, j), t, Run(start, steps).documents[t])
    {
      if j < |steps| {
        AtPrefix(start, steps, j);
        assert Reads(At(start, init, j), t, Run(start, init).documents[t]);
      }
    }
  }

  /** Every document of a run is as the last request about it left it: asked for, filed, accepted or refused. */
  lemma {:induction false} DocumentHasRequest(start: Application, steps: seq<Step>, t: string)
    requires start.documents == map[] && t in Run(start, steps).documents
    ensures exists i: nat :: WrittenAt(start, steps, i, t)
  {
    var init, last := steps[..|steps| - 1], steps[|steps| - 1];
    var a, d := Run(start, init), Run(start, steps).documents[t];
    AtEnd(start, steps);
    if Reads(a, t, d) {
      DocumentHasRequest(start, init, t);
      var i: nat :| WrittenAt(start, init, i, t);
      WrittenLater(start, steps, i, t);
    } else {
      DocumentWritten(a, last, t);
      assert WrittenAt(start, steps, |init|, t);
    }
  }

  // ---------------------------------------------------------------- evidence

  /** Request `i` gave piece `e` of condition `k` this verdict, while it was the last piece and waited for one. */
  ghost predicate JudgedAt(start: Application, steps: seq<Step>, i: nat, k: nat, e: nat, convincing: bool) {
    && i < |steps| && steps[i].action == DoReviewAnswer(k, e, convincing)
    && var a := At(start, steps, i);
    && a.status in WITH_DESK && k < |a.conditions| && a.conditions[k].status == Answered
    && e + 1 == |a.conditions[k].evidence| && a.conditions[k].evidence[e] == Waiting
  }

  /** Only a verdict changes a piece of evidence that is there, and a new piece waits. */
  lemma EvidenceWritten(a: Application, s: Step, k: nat, e: nat)
    requires Kept(a) && k < |After(a, s).conditions| && e < |After(a, s).conditions[k].evidence|
    requires After(a, s).conditions[k].evidence[e] != Waiting
    requires !(k < |a.conditions| && e < |a.conditions[k].evidence|
               && a.conditions[k].evidence[e] == After(a, s).conditions[k].evidence[e])
    ensures s.action == DoReviewAnswer(k, e, After(a, s).conditions[k].evidence[e] == Convincing)
    ensures a.status in WITH_DESK && k < |a.conditions| && a.conditions[k].status == Answered
    ensures e + 1 == |a.conditions[k].evidence| && a.conditions[k].evidence[e] == Waiting
  {
    if s.action.DoDecide? {
      GrowShape(a.conditions, s.action.more);
    }
    if s.action.DoReviewAnswer? && s.action.condition < |a.conditions| {
      assert a.conditions[s.action.condition] in a.conditions && ConditionKept(a.conditions[s.action.condition]);
      if LastIs(a.conditions[s.action.condition].evidence, Waiting)
        && s.action.evidence < |a.conditions[s.action.condition].evidence|
        && a.conditions[s.action.condition].evidence[s.action.evidence] == Waiting {
        OnlyLastWaits(a.conditions[s.action.condition].evidence, s.action.evidence);
      }
    }
  }

  /** Every piece of evidence that no longer waits got its verdict from the desk, in the request that gave just that. */
  lemma {:induction false} EvidenceHasVerdict(start: Application, steps: seq<Step>, k: nat, e: nat)
    requires JustCreated(start) && k < |Run(start, steps).conditions|
    requires e < |Run(start, steps).conditions[k].evidence| && Run(start, steps).conditions[k].evidence[e] != Waiting
    ensures var convincing := Run(start, steps).conditions[k].evidence[e] == Convincing;
      exists i: nat :: JudgedAt(start, steps, i, k, e, convincing)
  {
    var init, last := steps[..|steps| - 1], steps[|steps| - 1];
    var a, piece := Run(start, init), Run(start, steps).conditions[k].evidence[e];
    AtEnd(start, steps);
    RunKeeps(start, init);
    if k < |a.conditions| && e < |a.conditions[k].evidence| && a.conditions[k].evidence[e] == piece {
      EvidenceHasVerdict(start, init, k, e);
      var i: nat :| JudgedAt(start, init, i, k, e, piece == Convincing);
      AtPrefix(start, steps, i);
      assert JudgedAt(start, steps, i, k, e, piece == Convincing);
    } else {
      EvidenceWritten(a, last, k, e);
      assert JudgedAt(start, steps, |init|, k, e, piece == Convincing);
    }
  }

  /** Request `i` accepted the last piece of evidence condition `k` has. */
  ghost predicate AcceptedAt(start: Application, steps: seq<Step>, i: nat, k: nat) {
    && k < |Run(start, steps).conditions| && Run(start, steps).conditions[k].evidence != []
    && JudgedAt(start, steps, i, k, |Run(start, steps).conditions[k].evidence| - 1, true)
  }

  /** Every cleared condition of a run was cleared by an acceptance of its last piece of evidence. */
  lemma ClearedHasAcceptance(start: Application, steps: seq<Step>, k: nat)
    requires JustCreated(start) && k < |Run(start, steps).conditions|
    requires Run(start, steps).conditions[k].status == Cleared
    ensures exists i: nat :: AcceptedAt(start, steps, i, k)
  {
    var c := Run(start, steps).conditions[k];
    RunKeeps(start, steps);
    assert c in Run(start, steps).conditions && ConditionKept(c);
    var e: nat := |c.evidence| - 1;
    EvidenceHasVerdict(start, steps, k, e);
    var i: nat :| JudgedAt(start, steps, i, k, e, true);
    assert AcceptedAt(start, steps, i, k);
  }
}
