/** What a merge decides about a row, in terms of cells, ids and normalizers: no key and no index is mentioned. */
module MergeMeaning {
  import opened Common
  import opened MergeModel
  import opened MergeBasics

  // ---------------------------------------------------------------- when rows agree

  /** An id is a word of its own; anything else has to normalize to a non-empty word. */
  ghost predicate HoldsWord(m: TableMap, c: string, v: Value) {
    v.Ref? || m.normalize(c, AsText(v)) != ""
  }

  /** The same id, or texts that normalize to one non-empty word. */
  ghost predicate SameWord(m: TableMap, c: string, v: Value, w: Value) {
    if v.Ref? || w.Ref? then v == w
    else m.normalize(c, AsText(v)) == m.normalize(c, AsText(w)) != ""
  }

  /** Natural key `i` can be used to look the row up. */
  ghost predicate Identifies(m: TableMap, row: Row, i: nat) {
    i < |m.naturalKeys| && forall c | c in m.naturalKeys[i] :: HoldsWord(m, c, Cell(row, c))
  }

  /** The rows agree on every column of natural key `i`. */
  ghost predicate AgreeOn(m: TableMap, a: Row, b: Row, i: nat) {
    i < |m.naturalKeys| && forall c | c in m.naturalKeys[i] :: SameWord(m, c, Cell(a, c), Cell(b, c))
  }

  /** Stored row `n` is the first, in the order of reading, that agrees with `row` on natural key `i`. */
  ghost predicate FirstToAgree(m: TableMap, rows: seq<Rec>, row: Row, i: nat, n: nat) {
    n < |rows| && AgreeOn(m, rows[n].row, row, i) && forall j | 0 <= j < n :: !AgreeOn(m, rows[j].row, row, i)
  }

  /** By some natural key the row is stored row `id`. */
  ghost predicate Recognized(m: TableMap, rows: seq<Rec>, row: Row, id: Id) {
    exists i: nat, n: nat :: FirstToAgree(m, rows, row, i, n) && rows[n].id == id
  }

  /** Some stored row agrees with the row on natural key `i`. */
  ghost predicate Known(m: TableMap, rows: seq<Rec>, row: Row, i: nat) {
    exists r | r in rows :: AgreeOn(m, r.row, row, i)
  }

  lemma PartOfCell(m: TableMap, c: string, v: Value, w: Value)
    ensures Normalized(m, c, v).Truthy() <==> HoldsWord(m, c, v)
    ensures Normalized(m, c, v) == Normalized(m, c, w) && Normalized(m, c, v).Truthy() <==> SameWord(m, c, v, w)
  {
  }

  lemma KeyIdentifies(m: TableMap, row: Row, i: nat)
    requires i < |m.naturalKeys|
    ensures KeyAt(m, row, i).Some? <==> Identifies(m, row, i)
  {
    var columns := m.naturalKeys[i];
    var parts := Parts(m, columns, row);
    forall x | 0 <= x < |columns|
      ensures parts[x].Truthy() <==> HoldsWord(m, columns[x], Cell(row, columns[x]))
    {
      PartOfCell(m, columns[x], Cell(row, columns[x]), Cell(row, columns[x]));
    }
    if KeyAt(m, row, i).Some? {
      forall c | c in columns
        ensures HoldsWord(m, c, Cell(row, c))
      {
        var x :| 0 <= x < |columns| && columns[x] == c;
        assert parts[x].Truthy();
      }
    }
  }

  lemma KeysAgree(m: TableMap, a: Row, b: Row, i: nat)
    requires i < |m.naturalKeys|
    ensures KeyAt(m, a, i).Some? && KeyAt(m, a, i) == KeyAt(m, b, i) <==> AgreeOn(m, a, b, i)
  {
    var columns := m.naturalKeys[i];
    var x, y := Parts(m, columns, a), Parts(m, columns, b);
    forall j | 0 <= j < |columns|
      ensures x[j] == y[j] && x[j].Truthy() <==> SameWord(m, columns[j], Cell(a, columns[j]), Cell(b, columns[j]))
    {
      PartOfCell(m, columns[j], Cell(a, columns[j]), Cell(b, columns[j]));
    }
    if AgreeOn(m, a, b, i) {
      assert forall j | 0 <= j < |columns| :: x[j] == y[j] && x[j].Truthy();
      assert x == y;
    }
    if KeyAt(m, a, i).Some? && KeyAt(m, a, i) == KeyAt(m, b, i) {
      assert x == y && forall j | 0 <= j < |columns| :: x[j].Truthy();
      assert forall j | 0 <= j < |columns| :: SameWord(m, columns[j], Cell(a, columns[j]), Cell(b, columns[j]));
    }
  }

  /** A row has a usable key exactly when some natural key identifies it. */
  lemma KeysMean(m: TableMap, row: Row)
    ensures Keys(m, row) != {} <==> exists i: nat :: Identifies(m, row, i)
  {
    if k :| k in Keys(m, row) {
      var i :| 0 <= i < |m.naturalKeys| && KeyAt(m, row, i) == Some(k);
      KeyIdentifies(m, row, i);
    }
    if i: nat :| Identifies(m, row, i) {
      KeyIdentifies(m, row, i);
      assert KeyAt(m, row, i).value in Keys(m, row);
    }
  }

  lemma SharedMeans(m: TableMap, a: Row, b: Row, i: nat)
    requires i < |m.naturalKeys| && KeyAt(m, b, i).Some?
    ensures KeyAt(m, b, i).value in Keys(m, a) <==> AgreeOn(m, a, b, i)
  {
    KeysAgree(m, a, b, i);
    if KeyAt(m, b, i).value in Keys(m, a) {
      var j :| 0 <= j < |m.naturalKeys| && KeyAt(m, a, j) == KeyAt(m, b, i);
      assert j == i;
    }
  }

  /** No two rows of a table that agree on a natural key have different ids: what unique keys mean. */
  lemma UniqueKeysMean(m: TableMap, rows: seq<Rec>)
    ensures UniqueKeys(m, rows) <==>
      forall a, b, i: nat | a in rows && b in rows && AgreeOn(m, a.row, b.row, i) :: a.id == b.id
  {
    if UniqueKeys(m, rows) {
      forall a, b, i: nat | a in rows && b in rows && AgreeOn(m, a.row, b.row, i)
        ensures a.id == b.id
      {
        KeysAgree(m, a.row, b.row, i);
        assert KeyAt(m, a.row, i).value in Keys(m, a.row) * Keys(m, b.row);
      }
    } else {
      var a, b :| a in rows && b in rows && Keys(m, a.row) * Keys(m, b.row) != {} && a.id != b.id;
      var k :| k in Keys(m, a.row) && k in Keys(m, b.row);
      var i :| 0 <= i < |m.naturalKeys| && KeyAt(m, b.row, i) == Some(k);
      SharedMeans(m, a.row, b.row, i);
      assert AgreeOn(m, a.row, b.row, i);
    }
  }

  // ---------------------------------------------------------------- the index finds the first row that agrees

  lemma {:induction false} NotIndexed(m: TableMap, rows: seq<Rec>, k: Key)
    requires forall j | 0 <= j < |rows| :: k !in Keys(m, rows[j].row)
    ensures k !in IndexOf(m, rows)
  {
    if rows != [] {
      NotIndexed(m, rows[..|rows| - 1], k);
    }
  }

  ghost predicate HeldFirst(m: TableMap, rows: seq<Rec>, k: Key, n: nat) {
    n < |rows| && k in Keys(m, rows[n].row) && forall j | 0 <= j < n :: k !in Keys(m, rows[j].row)
  }

  lemma {:induction false} IndexedFirst(m: TableMap, rows: seq<Rec>, k: Key, n: nat)
    requires HeldFirst(m, rows, k, n)
    ensures k in IndexOf(m, rows) && IndexOf(m, rows)[k] == rows[n].id
  {
    var init := rows[..|rows| - 1];
    if n < |init| {
      IndexedFirst(m, init, k, n);
    } else {
      NotIndexed(m, init, k);
    }
  }

  lemma {:induction false} FirstHolder(m: TableMap, rows: seq<Rec>, k: Key) returns (n: nat)
    requires exists r | r in rows :: k in Keys(m, r.row)
    ensures HeldFirst(m, rows, k, n)
  {
    var init, last := rows[..|rows| - 1], rows[|rows| - 1];
    if r :| r in init && k in Keys(m, r.row) {
      n := FirstHolder(m, init, k);
    } else {
      n := |rows| - 1;
      forall j | 0 <= j < n
        ensures k !in Keys(m, rows[j].row)
      {
        assert init[j] in init;
      }
      assert forall r | r in rows :: r in init || r == last;
    }
  }

  lemma FirstHolderAgrees(m: TableMap, rows: seq<Rec>, row: Row, i: nat, n: nat)
    requires i < |m.naturalKeys| && KeyAt(m, row, i).Some? && n < |rows|
    ensures HeldFirst(m, rows, KeyAt(m, row, i).value, n) <==> FirstToAgree(m, rows, row, i, n)
  {
    SharedMeans(m, rows[n].row, row, i);
    forall j | 0 <= j < n
      ensures KeyAt(m, row, i).value in Keys(m, rows[j].row) <==> AgreeOn(m, rows[j].row, row, i)
    {
      SharedMeans(m, rows[j].row, row, i);
    }
  }

  lemma AgreementIsUsable(m: TableMap, a: Row, b: Row, i: nat)
    requires AgreeOn(m, a, b, i)
    ensures KeyAt(m, a, i).Some? && KeyAt(m, b, i).Some?
  {
    KeysAgree(m, a, b, i);
  }

  /** The ids found by the keys of a row are the ids it is recognized by. */
  lemma MatchesMean(m: TableMap, rows: seq<Rec>, row: Row, id: Id)
    ensures id in Matches(Keys(m, row), IndexOf(m, rows)) <==> Recognized(m, rows, row, id)
  {
    if id in Matches(Keys(m, row), IndexOf(m, rows)) {
      var k :| k in Keys(m, row) && k in IndexOf(m, rows) && IndexOf(m, rows)[k] == id;
      var i :| 0 <= i < |m.naturalKeys| && KeyAt(m, row, i) == Some(k);
      IndexIsExact(m, rows);
      assert Holds(m, rows, k, id);
      var n := FirstHolder(m, rows, k);
      IndexedFirst(m, rows, k, n);
      FirstHolderAgrees(m, rows, row, i, n);
    }
    if i: nat, n: nat :| FirstToAgree(m, rows, row, i, n) && rows[n].id == id {
      AgreementIsUsable(m, rows[n].row, row, i);
      FirstHolderAgrees(m, rows, row, i, n);
      IndexedFirst(m, rows, KeyAt(m, row, i).value, n);
      assert KeyAt(m, row, i).value in Keys(m, row);
    }
  }

  lemma {:induction false} SomeoneIsFirst(m: TableMap, rows: seq<Rec>, row: Row, i: nat)
    requires Known(m, rows, row, i)
    ensures exists n: nat :: FirstToAgree(m, rows, row, i, n)
  {
    var r :| r in rows && AgreeOn(m, r.row, row, i);
    AgreementIsUsable(m, r.row, row, i);
    SharedMeans(m, r.row, row, i);
    var n := FirstHolder(m, rows, KeyAt(m, row, i).value);
    FirstHolderAgrees(m, rows, row, i, n);
  }

  lemma NoMatchMeans(m: TableMap, rows: seq<Rec>, row: Row)
    ensures Matches(Keys(m, row), IndexOf(m, rows)) == {} <==> forall i: nat :: !Known(m, rows, row, i)
  {
    if id :| id in Matches(Keys(m, row), IndexOf(m, rows)) {
      MatchesMean(m, rows, row, id);
      var i: nat, n: nat :| FirstToAgree(m, rows, row, i, n);
      assert rows[n] in rows;
      assert Known(m, rows, row, i);
    }
    if i: nat :| Known(m, rows, row, i) {
      SomeoneIsFirst(m, rows, row, i);
      var n: nat :| FirstToAgree(m, rows, row, i, n);
      MatchesMean(m, rows, row, rows[n].id);
    }
  }

  lemma ReviewMeans(m: TableMap, rows: seq<Rec>, row: Row)
    ensures NeedsReview(m, row, IndexOf(m, rows)) <==> Identifies(m, row, 0) && !Known(m, rows, row, 0)
  {
    if 0 < |m.naturalKeys| {
      KeyIdentifies(m, row, 0);
      if KeyAt(m, row, 0).Some? {
        IndexIsExact(m, rows);
        var k := KeyAt(m, row, 0).value;
        if k in IndexOf(m, rows) {
          assert Holds(m, rows, k, IndexOf(m, rows)[k]);
          var r :| r in rows && k in Keys(m, r.row);
          SharedMeans(m, r.row, row, 0);
        }
        if r :| r in rows && AgreeOn(m, r.row, row, 0) {
          SharedMeans(m, r.row, row, 0);
        }
      }
    }
  }

  // ---------------------------------------------------------------- what an outcome means

  ghost predicate OnlyOne(m: TableMap, rows: seq<Rec>, row: Row, id: Id) {
    forall x | Recognized(m, rows, row, x) :: x == id
  }

  ghost predicate OneIsFound(m: TableMap, rows: seq<Rec>, row: Row) {
    exists id :: Recognized(m, rows, row, id) && OnlyOne(m, rows, row, id)
  }

  ghost predicate TwoAreFound(m: TableMap, rows: seq<Rec>, row: Row) {
    exists a, b :: a != b && Recognized(m, rows, row, a) && Recognized(m, rows, row, b)
  }

  /** The row has no natural key, or is new: what that says of the rows of its table. */
  ghost predicate NewMeans(m: TableMap, rows: seq<Rec>, row: Row, answer: Answer, o: Outcome) {
    && (o.NoNaturalKey? <==> forall i: nat :: !Identifies(m, row, i))
    && (o.Inserted? || o.InsertFailed? <==>
          (exists i: nat :: Identifies(m, row, i)) && forall i: nat :: !Known(m, rows, row, i))
    && (o.Inserted? ==> answer == Assigned(o.id)) && (o.InsertFailed? ==> answer == Rejected)
  }

  /** The row is matched with one stored row, or held back between several. */
  ghost predicate OldMeans(m: TableMap, rows: seq<Rec>, row: Row, o: Outcome) {
    && (o.Duplicate? <==> OneIsFound(m, rows, row))
    && (o.Duplicate? ==> Recognized(m, rows, row, o.id))
    && (o.Duplicate? ==> (o.review <==> Identifies(m, row, 0) && !Known(m, rows, row, 0)))
    && (o.Ambiguous? <==> TwoAreFound(m, rows, row))
  }

  /** What the outcome of a remapped row says about the rows of its table. */
  ghost predicate Means(m: TableMap, rows: seq<Rec>, row: Row, answer: Answer, o: Outcome) {
    !o.UnresolvedFk? && !o.Missing? && NewMeans(m, rows, row, answer, o) && OldMeans(m, rows, row, o)
  }

  /** How the outcome follows from the keys of the row and the ids they find. */
  ghost predicate Judged(keys: set<Key>, ids: set<Id>, review: bool, answer: Answer, o: Outcome) {
    && !o.UnresolvedFk? && !o.Missing? && (o.NoNaturalKey? <==> keys == {})
    && (o.Inserted? || o.InsertFailed? <==> keys != {} && ids == {})
    && (o.Inserted? ==> answer == Assigned(o.id)) && (o.InsertFailed? ==> answer == Rejected)
    && (o.Duplicate? <==> exists id :: ids == {id}) && (o.Duplicate? ==> ids == {o.id} && o.review == review)
    && (o.Ambiguous? <==> exists a, b :: a != b && a in ids && b in ids)
  }

  lemma StepJudges(st: State, job: nat, m: TableMap, src: Old, row: Row, answer: Answer)
    requires Remapped(m, st.idMaps, src) == Some(row)
    ensures var log := Step(st, job, m, src, true, answer).log;
      && |log| == |st.log| + 1
      && Judged(Keys(m, row), Matches(Keys(m, row), st.index), NeedsReview(m, row, st.index), answer,
                log[|st.log|].outcome)
  {
    var ids := Matches(Keys(m, row), st.index);
    if id :| id in ids {
      if x :| x in ids && x != id {
      } else {
        assert ids == {id};
      }
    }
  }

  lemma NewIsMeant(m: TableMap, rows: seq<Rec>, row: Row, answer: Answer, o: Outcome)
    requires Judged(Keys(m, row), Matches(Keys(m, row), IndexOf(m, rows)), NeedsReview(m, row, IndexOf(m, rows)),
                    answer, o)
    ensures NewMeans(m, rows, row, answer, o)
  {
    NoMatchMeans(m, rows, row);
    KeysMean(m, row);
  }

  /** The ids found are the ids the row is recognized by. */
  ghost predicate FoundAre(m: TableMap, rows: seq<Rec>, row: Row, ids: set<Id>) {
    forall id :: id in ids <==> Recognized(m, rows, row, id)
  }

  lemma MatchesAreFound(m: TableMap, rows: seq<Rec>, row: Row)
    ensures FoundAre(m, rows, row, Matches(Keys(m, row), IndexOf(m, rows)))
  {
    forall id
      ensures id in Matches(Keys(m, row), IndexOf(m, rows)) <==> Recognized(m, rows, row, id)
    {
      MatchesMean(m, rows, row, id);
    }
  }

  lemma OneFound(m: TableMap, rows: seq<Rec>, row: Row, ids: set<Id>, id: Id)
    requires FoundAre(m, rows, row, ids)
    ensures ids == {id} <==> Recognized(m, rows, row, id) && OnlyOne(m, rows, row, id)
  {
    if Recognized(m, rows, row, id) && OnlyOne(m, rows, row, id) {
      assert forall x | x in ids :: x == id;
    }
  }

  lemma OneIsMeant(m: TableMap, rows: seq<Rec>, row: Row, ids: set<Id>)
    requires FoundAre(m, rows, row, ids)
    ensures (exists id :: ids == {id}) <==> OneIsFound(m, rows, row)
  {
    if id :| ids == {id} {
      OneFound(m, rows, row, ids, id);
    }
    if id :| Recognized(m, rows, row, id) && OnlyOne(m, rows, row, id) {
      OneFound(m, rows, row, ids, id);
    }
  }

  lemma TwoAreMeant(m: TableMap, rows: seq<Rec>, row: Row, ids: set<Id>)
    requires FoundAre(m, rows, row, ids)
    ensures (exists a, b :: a != b && a in ids && b in ids) <==> TwoAreFound(m, rows, row)
  {
  }

  lemma OldIsMeant(m: TableMap, rows: seq<Rec>, row: Row, ids: set<Id>, review: bool, o: Outcome)
    requires FoundAre(m, rows, row, ids) && (review <==> Identifies(m, row, 0) && !Known(m, rows, row, 0))
    requires o.Duplicate? <==> exists id :: ids == {id}
    requires o.Duplicate? ==> ids == {o.id} && o.review == review
    requires o.Ambiguous? <==> exists a, b :: a != b && a in ids && b in ids
    ensures OldMeans(m, rows, row, o)
  {
    OneIsMeant(m, rows, row, ids);
    TwoAreMeant(m, rows, row, ids);
    if o.Duplicate? {
      assert o.id in ids;
    }
  }

  lemma RowMeans(st: State, job: nat, m: TableMap, src: Old, row: Row, answer: Answer)
    requires Remapped(m, st.idMaps, src) == Some(row) && st.index == IndexOf(m, Rows(st.db, m.target))
    ensures var log := Step(st, job, m, src, true, answer).log;
      |log| == |st.log| + 1 && Means(m, Rows(st.db, m.target), row, answer, log[|st.log|].outcome)
  {
    StepJudges(st, job, m, src, row, answer);
    var rows, o := Rows(st.db, m.target), Step(st, job, m, src, true, answer).log[|st.log|].outcome;
    NewIsMeant(m, rows, row, answer, o);
    MatchesAreFound(m, rows, row);
    ReviewMeans(m, rows, row);
    OldIsMeant(m, rows, row, Matches(Keys(m, row), st.index), NeedsReview(m, row, st.index), o);
  }

  /**
   * The outcome of every row of a merge, read off the cells of the row and of the table as it stands. The row is
   * unresolved exactly when it cannot be remapped; otherwise it has no natural key exactly when a column of each is
   * blank; it is new exactly when some key identifies it and no stored row agrees with it on any; and it is matched
   * with the one row, or held back between the several, that are the first to agree with it on some key.
   */
  lemma OutcomeMeaning(s: Setup, db: Database, k: nat, n: nat)
    requires Position(s, k, n) && n < |s.jobs[k].rows| && s.execute
    ensures var st, m, src := At(s, db, k, n), s.jobs[k].m, s.jobs[k].rows[n];
      var st', row := At(s, db, k, n + 1), Remapped(m, st.idMaps, src);
      && |st'.log| == |st.log| + 1
      && (st'.log[|st.log|].outcome.UnresolvedFk? <==> row == None)
      && (row.Some? ==> Means(m, Rows(st.db, m.target), row.value, s.answers(k, n), st'.log[|st.log|].outcome))
  {
    OpenIndex(s, db, k, n);
    var st, m, src := At(s, db, k, n), s.jobs[k].m, s.jobs[k].rows[n];
    var row := Remapped(m, st.idMaps, src);
    if row.Some? {
      RowMeans(st, k, m, src, row.value, s.answers(k, n));
    }
  }
}
