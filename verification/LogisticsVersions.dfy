/** Document versions: what an upload does to the chain of its kind. */
module LogisticsVersions {
  import opened Common
  import opened LogisticsModel

  function CountKind(documents: seq<Document>, kind: Kind): nat {
    if documents == [] then 0
    else CountKind(documents[..|documents| - 1], kind) + if documents[|documents| - 1].kind == kind then 1 else 0
  }

  ghost predicate Latest(documents: seq<Document>, i: int)
    requires 0 <= i < |documents|
  {
    forall j | i < j < |documents| :: documents[j].kind != documents[i].kind
  }

  ghost predicate Numbered(documents: seq<Document>) {
    forall i | 0 <= i < |documents| :: documents[i].version == CountKind(documents[..i], documents[i].kind) + 1
  }

  ghost predicate LatestIsCurrent(documents: seq<Document>) {
    forall i | 0 <= i < |documents| :: documents[i].current <==> Latest(documents, i)
  }

  ghost predicate SameLinks(a: Document, b: Document) {
    a.domain == b.domain && a.scope == b.scope && a.vehicle == b.vehicle && a.driver == b.driver
      && a.condition == b.condition
  }

  ghost predicate LinksConstant(documents: seq<Document>) {
    forall i, j | 0 <= i < j < |documents| && documents[i].kind == documents[j].kind ::
      SameLinks(documents[i], documents[j])
  }

  /** Versions of a kind are 1, 2, ... in order of upload; the last one alone is current; its links never change. */
  ghost predicate Chains(documents: seq<Document>) {
    Numbered(documents) && LatestIsCurrent(documents) && LinksConstant(documents)
  }

  lemma {:induction false} CountNone(documents: seq<Document>, kind: Kind)
    requires forall d | d in documents :: d.kind != kind
    ensures CountKind(documents, kind) == 0
  {
    if documents != [] {
      assert documents[|documents| - 1] in documents;
      CountNone(documents[..|documents| - 1], kind);
    }
  }

  /** Documents of other kinds do not count. */
  lemma {:induction false} CountUpTo(documents: seq<Document>, kind: Kind, i: nat)
    requires i < |documents| && documents[i].kind == kind
    requires forall j | i < j < |documents| :: documents[j].kind != kind
    ensures CountKind(documents, kind) == CountKind(documents[..i], kind) + 1
  {
    if i < |documents| - 1 {
      var init := documents[..|documents| - 1];
      CountUpTo(init, kind, i);
      assert init[..i] == documents[..i];
    }
  }

  lemma {:induction false} CountSameKinds(a: seq<Document>, b: seq<Document>, kind: Kind)
    requires |a| == |b| && forall i | 0 <= i < |a| :: a[i].kind == b[i].kind
    ensures CountKind(a, kind) == CountKind(b, kind)
  {
    if a != [] {
      CountSameKinds(a[..|a| - 1], b[..|b| - 1], kind);
    }
  }

  /** A kind with any version has a current one. */
  lemma {:induction false} SomeLatest(documents: seq<Document>, kind: Kind) returns (i: nat)
    requires exists d | d in documents :: d.kind == kind
    ensures i < |documents| && documents[i].kind == kind && Latest(documents, i)
  {
    if documents[|documents| - 1].kind == kind {
      i := |documents| - 1;
    } else {
      var init := documents[..|documents| - 1];
      var d :| d in documents && d.kind == kind;
      assert d in init;
      i := SomeLatest(init, kind);
      assert forall j | i < j < |documents| :: j < |documents| - 1 ==> documents[j] == init[j];
    }
  }

  lemma SomeCurrent(documents: seq<Document>, kind: Kind)
    requires LatestIsCurrent(documents)
    ensures (exists d | d in documents :: d.kind == kind) ==> CurrentOf(documents, kind).Some?
  {
    if exists d | d in documents :: d.kind == kind {
      var i := SomeLatest(documents, kind);
      assert documents[i] in documents && documents[i].current;
    }
  }

  /** Lists that agree on everything a chain is about. */
  ghost predicate SameChain(a: seq<Document>, b: seq<Document>) {
    |a| == |b| && forall i | 0 <= i < |a| ::
      a[i].kind == b[i].kind && a[i].version == b[i].version && a[i].current == b[i].current && SameLinks(a[i], b[i])
  }

  lemma {:induction false} SameChainNumbered(a: seq<Document>, b: seq<Document>)
    requires SameChain(a, b) && Numbered(a)
    ensures Numbered(b)
  {
    forall j | 0 <= j < |b|
      ensures b[j].version == CountKind(b[..j], b[j].kind) + 1
    {
      CountSameKinds(a[..j], b[..j], a[j].kind);
    }
  }

  lemma {:induction false} SameChainCurrent(a: seq<Document>, b: seq<Document>)
    requires SameChain(a, b) && LatestIsCurrent(a)
    ensures LatestIsCurrent(b)
  {
    forall j | 0 <= j < |b|
      ensures b[j].current <==> Latest(b, j)
    {
      assert a[j].current <==> Latest(a, j);
    }
  }

  lemma {:induction false} SameChainLinks(a: seq<Document>, b: seq<Document>)
    requires SameChain(a, b) && LinksConstant(a)
    ensures LinksConstant(b)
  {
    forall j, k | 0 <= j < k < |b| && b[j].kind == b[k].kind
      ensures SameLinks(b[j], b[k])
    {
      assert SameLinks(a[j], a[k]);
    }
  }

  /** The same chain with another verdict. */
  lemma {:induction false} ReviewKeepsChains(documents: seq<Document>, i: nat, status: Evidence)
    requires Chains(documents) && i < |documents|
    ensures Chains(documents[i := documents[i].(status := status)])
  {
    var after := documents[i := documents[i].(status := status)];
    SameChainNumbered(documents, after);
    SameChainCurrent(documents, after);
    SameChainLinks(documents, after);
  }

  ghost predicate Continues(documents: seq<Document>, u: Upload) {
    var previous := CurrentOf(documents, u.kind);
    previous.Some? ==> SameIdentity(documents[previous.value], u)
  }

  /** What an upload changes: the previous version, if any, stops being current, and one document is added. */
  lemma AddVersionShape(documents: seq<Document>, u: Upload)
    ensures var after, n := AddVersion(documents, u), |documents|;
      && |after| == n + 1 && after[n].current && after[n].status == Unreviewed && after[n].kind == u.kind
      && after[n].expires == u.expires && SameIdentity(after[n], u)
      && (forall i | 0 <= i < n :: after[i] == documents[i]
           || (after[i] == documents[i].(current := false) && documents[i].kind == u.kind))
      && (CurrentOf(documents, u.kind) == None ==> after[..n] == documents && after[n].version == 1)
  {
  }

  lemma AddVersionNumbered(documents: seq<Document>, u: Upload)
    requires Chains(documents)
    ensures Numbered(AddVersion(documents, u))
  {
    var after, n := AddVersion(documents, u), |documents|;
    AddVersionShape(documents, u);
    forall j | 0 <= j < |after|
      ensures after[j].version == CountKind(after[..j], after[j].kind) + 1
    {
      if j < n {
        CountSameKinds(documents[..j], after[..j], documents[j].kind);
      } else {
        CountSameKinds(documents, after[..n], u.kind);
        match CurrentOf(documents, u.kind) {
          case Some(i) =>
            assert Latest(documents, i);
            CountUpTo(documents, u.kind, i);
          case None =>
            SomeCurrent(documents, u.kind);
            CountNone(documents, u.kind);
        }
      }
    }
  }

  /** Exactly the previous latest version is superseded. */
  lemma AddVersionCurrent(documents: seq<Document>, u: Upload)
    requires Chains(documents)
    ensures LatestIsCurrent(AddVersion(documents, u))
  {
    var after, n := AddVersion(documents, u), |documents|;
    AddVersionShape(documents, u);
    forall j | 0 <= j < |after|
      ensures after[j].current <==> Latest(after, j)
    {
      if j < n && documents[j].kind == u.kind {
        assert after[n].kind == after[j].kind;
        if documents[j].current {
          var i := CurrentOf(documents, u.kind).value;
          assert Latest(documents, j) && Latest(documents, i);
          assert i == j;
        }
      } else if j < n {
        assert after[j] == documents[j];
        assert documents[j].current <==> Latest(documents, j);
        assert forall k | 0 <= k < n :: after[k].kind == documents[k].kind;
      }
    }
  }

  lemma AddVersionLinks(documents: seq<Document>, u: Upload)
    requires Chains(documents) && Continues(documents, u)
    ensures LinksConstant(AddVersion(documents, u))
  {
    var after, n := AddVersion(documents, u), |documents|;
    AddVersionShape(documents, u);
    forall j, k | 0 <= j < k < |after| && after[j].kind == after[k].kind
      ensures SameLinks(after[j], after[k])
    {
      if k < n {
        assert SameLinks(documents[j], documents[k]);
      } else {
        var i := SomeLatest(documents, u.kind) by {
          assert documents[j] in documents;
        }
        assert documents[i].current && documents[i] in documents;
        var p := CurrentOf(documents, u.kind).value;
        assert Latest(documents, p);
        assert j == p || SameLinks(documents[j], documents[p]);
      }
    }
  }

  lemma AddVersionKeepsChains(documents: seq<Document>, u: Upload)
    requires Chains(documents) && Continues(documents, u)
    ensures Chains(AddVersion(documents, u))
  {
    AddVersionNumbered(documents, u);
    AddVersionCurrent(documents, u);
    AddVersionLinks(documents, u);
  }

  /** Two current versions of one kind are the same version. */
  lemma OneCurrent(documents: seq<Document>, i: nat, j: nat)
    requires LatestIsCurrent(documents) && i < |documents| && j < |documents|
    requires documents[i].current && documents[j].current && documents[i].kind == documents[j].kind
    ensures i == j
  {
    assert Latest(documents, i) && Latest(documents, j);
  }

  ghost predicate HasVersion(documents: seq<Document>, kind: Kind, v: nat) {
    exists d | d in documents :: d.kind == kind && d.version == v
  }

  lemma {:induction false} HasVersionSplit(init: seq<Document>, last: Document, kind: Kind, v: nat)
    ensures HasVersion(init + [last], kind, v)
      <==> HasVersion(init, kind, v) || (last.kind == kind && last.version == v)
  {
    if HasVersion(init, kind, v) {
      var d :| d in init && d.kind == kind && d.version == v;
      assert d in init + [last];
    }
    assert last in init + [last];
  }

  /** The versions of a kind are exactly the numbers from 1 to how many there are. */
  lemma NumberedInit(documents: seq<Document>)
    requires Numbered(documents) && documents != []
    ensures Numbered(documents[..|documents| - 1])
  {
    var init := documents[..|documents| - 1];
    forall i | 0 <= i < |init|
      ensures init[i].version == CountKind(init[..i], init[i].kind) + 1
    {
      assert documents[..i] == init[..i] && init[i] == documents[i];
    }
  }

  lemma {:induction false} VersionsAreOneToN(documents: seq<Document>, kind: Kind, v: nat)
    requires Numbered(documents)
    ensures HasVersion(documents, kind, v) <==> 1 <= v <= CountKind(documents, kind)
  {
    if documents != [] {
      var init, last := documents[..|documents| - 1], documents[|documents| - 1];
      assert documents == init + [last];
      NumberedInit(documents);
      VersionsAreOneToN(init, kind, v);
      HasVersionSplit(init, last, kind, v);
    }
  }

  lemma {:induction false} CountRises(documents: seq<Document>, kind: Kind, i: nat, j: nat)
    requires i <= j <= |documents|
    ensures CountKind(documents[..i], kind) <= CountKind(documents[..j], kind)
    ensures (exists k | i <= k < j :: documents[k].kind == kind)
      ==> CountKind(documents[..i], kind) < CountKind(documents[..j], kind)
  {
    if i < j {
      CountRises(documents, kind, i, j - 1);
      assert documents[..j][..j - 1] == documents[..j - 1];
    }
  }

  lemma VersionsRise(documents: seq<Document>, i: nat, j: nat)
    requires Numbered(documents) && LinksConstant(documents) && i < j < |documents|
      && documents[i].kind == documents[j].kind
    ensures documents[i].version < documents[j].version && SameLinks(documents[i], documents[j])
  {
    CountRises(documents, documents[i].kind, i, j);
  }

  lemma CurrentIsLast(documents: seq<Document>, i: nat)
    requires Chains(documents) && i < |documents|
    ensures documents[i].current <==> documents[i].version == CountKind(documents, documents[i].kind)
  {
    if Latest(documents, i) {
      CountUpTo(documents, documents[i].kind, i);
    } else {
      LaterCounts(documents, i);
    }
  }

  lemma LaterCounts(documents: seq<Document>, i: nat)
    requires i < |documents| && !Latest(documents, i)
    ensures CountKind(documents[..i], documents[i].kind) + 1 < CountKind(documents, documents[i].kind)
  {
    var kind := documents[i].kind;
    CountRises(documents, kind, i + 1, |documents|);
    assert documents[..|documents|] == documents;
    assert documents[..i + 1][..i] == documents[..i];
  }

  lemma LastIsCurrent(documents: seq<Document>, kind: Kind)
    requires Chains(documents)
    ensures forall d | d in documents && d.kind == kind :: d.current <==> d.version == CountKind(documents, kind)
  {
    forall d | d in documents && d.kind == kind
      ensures d.current <==> d.version == CountKind(documents, kind)
    {
      var i :| 0 <= i < |documents| && documents[i] == d;
      CurrentIsLast(documents, i);
    }
  }

  lemma OfOneKindAt(documents: seq<Document>, i: nat, j: nat)
    requires Numbered(documents) && LinksConstant(documents) && i < |documents| && j < |documents|
    requires documents[i].kind == documents[j].kind
    ensures SameLinks(documents[i], documents[j]) && (documents[i].version == documents[j].version ==> i == j)
  {
    if i < j {
      VersionsRise(documents, i, j);
    } else if j < i {
      VersionsRise(documents, j, i);
    }
  }

  /** Two versions of a kind are linked to the same records, and have different numbers unless they are one. */
  lemma OfOneKind(documents: seq<Document>, a: Document, b: Document)
    requires Numbered(documents) && LinksConstant(documents) && a in documents && b in documents && a.kind == b.kind
    ensures SameLinks(a, b) && (a.version == b.version ==> a == b)
  {
    var i :| 0 <= i < |documents| && documents[i] == a;
    var j :| 0 <= j < |documents| && documents[j] == b;
    OfOneKindAt(documents, i, j);
  }

  /**
   * Per kind the versions are exactly 1..n, exactly the n-th is current, and all are linked
   * to the same records as the first.
   */
  lemma ChainMeans(documents: seq<Document>, kind: Kind, v: nat)
    requires Chains(documents)
    ensures HasVersion(documents, kind, v) <==> 1 <= v <= CountKind(documents, kind)
    ensures forall d | d in documents && d.kind == kind :: d.current <==> d.version == CountKind(documents, kind)
    ensures forall a, b | a in documents && b in documents && a.kind == kind && b.kind == kind ::
      SameLinks(a, b) && (a.version == b.version ==> a == b)
  {
    VersionsAreOneToN(documents, kind, v);
    LastIsCurrent(documents, kind);
    forall a, b | a in documents && b in documents && a.kind == kind && b.kind == kind
      ensures SameLinks(a, b) && (a.version == b.version ==> a == b)
    {
      OfOneKind(documents, a, b);
    }
  }
}
