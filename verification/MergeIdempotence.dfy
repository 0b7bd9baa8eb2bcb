/** Running the merge again on its own result inserts nothing. */
module MergeIdempotence {
  import opened Common
  import opened MergeModel
  import opened MergeBasics

  /** On these tables the first id maps are part of the second. */
  ghost predicate SubMaps(a: IdMaps, b: IdMaps, ts: iset<string>) {
    forall t | t in ts :: SubMap(IdMap(a, t), IdMap(b, t))
  }

  ghost predicate SubMap(a: map<string, Id>, b: map<string, Id>) {
    forall pk | pk in a :: pk in b && b[pk] == a[pk]
  }

  /** The tables in which a row of this map must have its parents. */
  ghost predicate NeedsOnly(m: TableMap, ts: iset<string>) {
    forall f | 0 <= f < |m.foreignKeys| && m.foreignKeys[f].onMissing == Skip :: m.foreignKeys[f].references in ts
  }

  /** The columns whose foreign key may become null. */
  ghost predicate Nullable(m: TableMap, column: string) {
    exists f :: 0 <= f < |m.foreignKeys| && m.foreignKeys[f].column == column && m.foreignKeys[f].onMissing == SetNull
  }

  ghost predicate SameButNullable(m: TableMap, a: Row, b: Row) {
    forall c | !Nullable(m, c) :: Cell(a, c) == Cell(b, c)
  }

  /** The first `n` foreign keys leave the other columns alone. */
  lemma {:induction false} ResolveKeepsOthers(m: TableMap, n: nat, idMaps: IdMaps, row: Row, c: string)
    requires n <= |m.foreignKeys| && Resolve(m.foreignKeys, n, idMaps, row).Some?
    requires forall f | 0 <= f < n :: m.foreignKeys[f].column != c
    ensures Cell(Resolve(m.foreignKeys, n, idMaps, row).value, c) == Cell(row, c)
  {
    if n > 0 {
      ResolveKeepsOthers(m, n - 1, idMaps, row, c);
    }
  }

  /** Fewer known parents: what still resolves resolves to the same row, up to nullable columns. */
  lemma {:induction false} ResolveWithLess(m: TableMap, n: nat, less: IdMaps, more: IdMaps, ts: iset<string>, row: Row)
    requires n <= |m.foreignKeys| && SubMaps(less, more, ts) && NeedsOnly(m, ts) && StableKeys(m)
    requires Resolve(m.foreignKeys, n, less, row).Some?
    ensures Resolve(m.foreignKeys, n, more, row).Some?
    ensures SameButNullable(m, Resolve(m.foreignKeys, n, less, row).value, Resolve(m.foreignKeys, n, more, row).value)
  {
    if n > 0 {
      ResolveWithLess(m, n - 1, less, more, ts, row);
      var fk := m.foreignKeys[n - 1];
      ResolveKeepsOthers(m, n - 1, less, row, fk.column);
      ResolveKeepsOthers(m, n - 1, more, row, fk.column);
      assert fk.onMissing == Skip ==> SubMap(IdMap(less, fk.references), IdMap(more, fk.references));
      ResolveOneWithLess(m, n - 1, less, more, Resolve(m.foreignKeys, n - 1, less, row).value,
        Resolve(m.foreignKeys, n - 1, more, row).value);
    }
  }

  lemma ResolveOneWithLess(m: TableMap, f: nat, less: IdMaps, more: IdMaps, a: Row, b: Row)
    requires f < |m.foreignKeys| && SameButNullable(m, a, b)
    requires Cell(a, m.foreignKeys[f].column) == Cell(b, m.foreignKeys[f].column)
    requires var fk := m.foreignKeys[f];
      fk.onMissing == Skip ==> SubMap(IdMap(less, fk.references), IdMap(more, fk.references))
    requires ResolveOne(m.foreignKeys[f], less, a).Some?
    ensures ResolveOne(m.foreignKeys[f], more, b).Some?
    ensures SameButNullable(m, ResolveOne(m.foreignKeys[f], less, a).value, ResolveOne(m.foreignKeys[f], more, b).value)
  {
    assert m.foreignKeys[f].onMissing == SetNull ==> Nullable(m, m.foreignKeys[f].column);
  }

  lemma KeysIgnoreNullable(m: TableMap, a: Row, b: Row)
    requires StableKeys(m) && SameButNullable(m, a, b)
    ensures Keys(m, a) == Keys(m, b)
  {
    forall i | 0 <= i < |m.naturalKeys|
      ensures KeyAt(m, a, i) == KeyAt(m, b, i)
    {
      forall j | 0 <= j < |m.naturalKeys[i]|
        ensures Cell(a, m.naturalKeys[i][j]) == Cell(b, m.naturalKeys[i][j])
      {
        assert m.naturalKeys[i][j] in m.naturalKeys[i];
        assert !Nullable(m, m.naturalKeys[i][j]);
      }
      assert Parts(m, m.naturalKeys[i], a) == Parts(m, m.naturalKeys[i], b);
    }
    assert forall i | 0 <= i < |m.naturalKeys| :: KeyAt(m, a, i) == KeyAt(m, b, i);
  }

  ghost predicate Quiet(o: Outcome) {
    o.UnresolvedFk? || o.NoNaturalKey? || o.Ambiguous? || o.Duplicate?
  }

  /** The second index knows what the first knows, with the same rows where the order of reading does not matter. */
  ghost predicate Reloaded(a: Index, b: Index, settled: bool) {
    a.Keys <= b.Keys && (settled ==> SubIndex(a, b))
  }

  /** The second run has done nothing to its tables with this row. */
  ghost predicate QuietStep(b: State, b': State) {
    && b'.db == b.db && b'.index == b.index
    && |b'.log| == |b.log| + 1 && b'.log[..|b.log|] == b.log && Quiet(b'.log[|b.log|].outcome)
  }

  /**
   * One row of the first run beside the same row of the second: when the second
   * run's index already holds the keys the first run's index holds after the row,
   * the second run skips the row; it agrees on every id it maps in a settled table.
   */
  lemma SecondStep(
      a: State, b: State, job: nat, m: TableMap, src: Old, execute: bool, answerA: Answer, answerB: Answer,
      ts: iset<string>)
    requires StableKeys(m) && NeedsOnly(m, ts) && SubMaps(b.idMaps, a.idMaps, ts)
    requires src.pk !in IdMap(a.idMaps, m.target)
    requires var a' := Step(a, job, m, src, true, answerA);
      Reloaded(a'.index, b.index, m.target in ts) && !a'.log[|a.log|].outcome.InsertFailed?
    ensures var a' := Step(a, job, m, src, true, answerA);
      var b' := Step(b, job, m, src, execute, answerB);
      SubMaps(b'.idMaps, a'.idMaps, ts) && QuietStep(b, b')
  {
    var rowB := Remapped(m, b.idMaps, src);
    UnresolvedStep(a, job, m, src, answerA, ts);
    SubMapsTransitive(b.idMaps, a.idMaps, Step(a, job, m, src, true, answerA).idMaps, ts);
    if rowB.Some? {
      ResolveWithLess(m, |m.foreignKeys|, b.idMaps, a.idMaps, ts, Lift(src.cells));
      var rowA := Remapped(m, a.idMaps, src);
      KeysIgnoreNullable(m, rowB.value, rowA.value);
      if Keys(m, rowA.value) != {} {
        if m.target in ts {
          KnownStep(a, b, job, m, src, execute, answerA, answerB, ts);
        } else {
          LeafStep(a, b, job, m, src, execute, answerA, answerB, ts);
        }
      }
    }
  }

  /** Whatever a row does to the id maps, it maps its own key only. */
  lemma UnresolvedStep(a: State, job: nat, m: TableMap, src: Old, answer: Answer, ts: iset<string>)
    requires src.pk !in IdMap(a.idMaps, m.target)
    ensures SubMaps(a.idMaps, Step(a, job, m, src, true, answer).idMaps, ts)
  {
  }

  /** A row some key of which is known is skipped; it is mapped exactly when one row matches. */
  lemma SkipEffect(st: State, job: nat, m: TableMap, src: Old, execute: bool, answer: Answer, row: Row)
    requires Remapped(m, st.idMaps, src) == Some(row) && Matches(Keys(m, row), st.index) != {}
    ensures var st' := Step(st, job, m, src, execute, answer);
      && st'.db == st.db && st'.index == st.index
      && |st'.log| == |st.log| + 1 && st'.log[..|st.log|] == st.log && Quiet(st'.log[|st.log|].outcome)
    ensures var st' := Step(st, job, m, src, execute, answer);
      st'.idMaps == st.idMaps
      || exists id :: Matches(Keys(m, row), st.index) == {id} && st'.idMaps == MapTo(st, m, src, id).idMaps
    ensures forall id :: Matches(Keys(m, row), st.index) == {id} ==>
      Step(st, job, m, src, execute, answer).idMaps == MapTo(st, m, src, id).idMaps
  {
    var ids := Matches(Keys(m, row), st.index);
    forall id | ids == {id}
      ensures Step(st, job, m, src, execute, answer).idMaps == MapTo(st, m, src, id).idMaps
    {
      assert forall x | x in ids :: x == id;
    }
  }

  lemma NoMatchNoKey(keys: set<Key>, index: Index)
    requires Matches(keys, index) == {}
    ensures forall k | k in keys :: k !in index
  {
    if k :| k in keys && k in index {
      MatchesOf(keys, index, index[k]);
    }
  }

  lemma AdmittedIsMapped(st: State, job: nat, m: TableMap, src: Old, answer: Answer, row: Row)
    requires Remapped(m, st.idMaps, src) == Some(row) && Keys(m, row) != {} && Matches(Keys(m, row), st.index) == {}
    requires answer.Assigned?
    ensures var st' := Step(st, job, m, src, true, answer);
      && st'.idMaps == MapTo(st, m, src, answer.id).idMaps
      && forall k | k in Keys(m, row) :: k in st'.index && st'.index[k] == answer.id
  {
    NoMatchNoKey(Keys(m, row), st.index);
  }

  lemma SubMapTo(a: State, b: State, m: TableMap, src: Old, id: Id, ts: iset<string>)
    requires SubMaps(b.idMaps, a.idMaps, ts)
    ensures SubMaps(MapTo(b, m, src, id).idMaps, MapTo(a, m, src, id).idMaps, ts)
  {
    var b', a' := MapTo(b, m, src, id).idMaps, MapTo(a, m, src, id).idMaps;
    forall t | t in ts
      ensures SubMap(IdMap(b', t), IdMap(a', t))
    {
      assert SubMap(IdMap(b.idMaps, t), IdMap(a.idMaps, t));
    }
  }

  /** A table outside the set may be mapped as it will. */
  lemma SubMapBeside(a: IdMaps, b: State, m: TableMap, src: Old, id: Id, ts: iset<string>)
    requires SubMaps(b.idMaps, a, ts) && m.target !in ts
    ensures SubMaps(MapTo(b, m, src, id).idMaps, a, ts)
  {
    var b' := MapTo(b, m, src, id).idMaps;
    forall t | t in ts
      ensures SubMap(IdMap(b', t), IdMap(a, t))
    {
      assert SubMap(IdMap(b.idMaps, t), IdMap(a, t)) && IdMap(b', t) == IdMap(b.idMaps, t);
    }
  }

  lemma SubMapsTransitive(a: IdMaps, b: IdMaps, c: IdMaps, ts: iset<string>)
    requires SubMaps(a, b, ts) && SubMaps(b, c, ts)
    ensures SubMaps(a, c, ts)
  {
    forall t | t in ts
      ensures SubMap(IdMap(a, t), IdMap(c, t))
    {
      assert SubMap(IdMap(a, t), IdMap(b, t)) && SubMap(IdMap(b, t), IdMap(c, t));
    }
  }

  /** What both kinds of known rows have in common. */
  ghost predicate KnownInBoth(a: State, b: State, m: TableMap, src: Old) {
    && Remapped(m, a.idMaps, src).Some? && Remapped(m, b.idMaps, src).Some?
    && var keys := Keys(m, Remapped(m, a.idMaps, src).value);
    && keys != {} && keys == Keys(m, Remapped(m, b.idMaps, src).value)
  }

  lemma KnownStep(
      a: State, b: State, job: nat, m: TableMap, src: Old, execute: bool, answerA: Answer, answerB: Answer,
      ts: iset<string>)
    requires SubMaps(b.idMaps, a.idMaps, ts) && KnownInBoth(a, b, m, src)
    requires var a' := Step(a, job, m, src, true, answerA);
      SubMaps(b.idMaps, a'.idMaps, ts) && SubIndex(a'.index, b.index) && !a'.log[|a.log|].outcome.InsertFailed?
    ensures var a' := Step(a, job, m, src, true, answerA);
      var b' := Step(b, job, m, src, execute, answerB);
      SubMaps(b'.idMaps, a'.idMaps, ts) && QuietStep(b, b')
  {
    var rowA, rowB := Remapped(m, a.idMaps, src).value, Remapped(m, b.idMaps, src).value;
    var keys := Keys(m, rowA);
    var idsA, idsB := Matches(keys, a.index), Matches(keys, b.index);
    var b' := Step(b, job, m, src, execute, answerB);
    if idsA == {} {
      AdmittedIsMapped(a, job, m, src, answerA, rowA);
      OnlyMatch(keys, b.index, answerA.id);
      SkipEffect(b, job, m, src, execute, answerB, rowB);
      SubMapTo(a, b, m, src, answerA.id, ts);
    } else {
      SkipEffect(a, job, m, src, true, answerA, rowA);
      MatchesGrow(keys, a.index, b.index);
      SkipEffect(b, job, m, src, execute, answerB, rowB);
      if id :| idsB == {id} && b'.idMaps == MapTo(b, m, src, id).idMaps {
        assert idsA == {id};
        SubMapTo(a, b, m, src, id, ts);
      }
    }
  }

  /** In a table outside the set a known key is enough: the row is duplicate or ambiguous. */
  lemma LeafStep(
      a: State, b: State, job: nat, m: TableMap, src: Old, execute: bool, answerA: Answer, answerB: Answer,
      ts: iset<string>)
    requires m.target !in ts && KnownInBoth(a, b, m, src)
    requires var a' := Step(a, job, m, src, true, answerA);
      SubMaps(b.idMaps, a'.idMaps, ts) && a'.index.Keys <= b.index.Keys && !a'.log[|a.log|].outcome.InsertFailed?
    ensures var a' := Step(a, job, m, src, true, answerA);
      var b' := Step(b, job, m, src, execute, answerB);
      SubMaps(b'.idMaps, a'.idMaps, ts) && QuietStep(b, b')
  {
    var rowA, rowB := Remapped(m, a.idMaps, src).value, Remapped(m, b.idMaps, src).value;
    var keys := Keys(m, rowA);
    var a', b' := Step(a, job, m, src, true, answerA), Step(b, job, m, src, execute, answerB);
    KnownAfter(a, job, m, src, answerA, rowA);
    var key :| key in keys && key in a'.index;
    assert b.index[key] in Matches(keys, b.index);
    SkipEffect(b, job, m, src, execute, answerB, rowB);
    if id :| Matches(keys, b.index) == {id} && b'.idMaps == MapTo(b, m, src, id).idMaps {
      SubMapBeside(a'.idMaps, b, m, src, id, ts);
    }
  }

  /** After a row with usable keys has been merged one of them is in the index. */
  lemma KnownAfter(a: State, job: nat, m: TableMap, src: Old, answer: Answer, row: Row)
    requires Remapped(m, a.idMaps, src) == Some(row) && Keys(m, row) != {}
    requires !Step(a, job, m, src, true, answer).log[|a.log|].outcome.InsertFailed?
    ensures exists key :: key in Keys(m, row) && key in Step(a, job, m, src, true, answer).index
  {
    var keys := Keys(m, row);
    if Matches(keys, a.index) == {} {
      AdmittedIsMapped(a, job, m, src, answer, row);
      var key :| key in keys;
      assert key in Step(a, job, m, src, true, answer).index;
    } else {
      SkipEffect(a, job, m, src, true, answer, row);
      var id :| id in Matches(keys, a.index);
      MatchesOf(keys, a.index, id);
    }
  }

  lemma OnlyMatch(keys: set<Key>, index: Index, id: Id)
    requires keys != {} && forall k | k in keys :: k in index && index[k] == id
    ensures Matches(keys, index) == {id}
  {
    var k :| k in keys;
    assert index[k] in Matches(keys, index);
  }

  // ---------------------------------------------------------------- whole runs

  ghost predicate NoFailure(log: seq<Entry>) {
    forall e | e in log :: !e.outcome.InsertFailed?
  }

  ghost predicate AllQuiet(log: seq<Entry>) {
    forall e | e in log :: Quiet(e.outcome)
  }

  /** The same rows, in whatever order the database returns them. */
  ghost predicate SameRows(a: Database, b: Database) {
    forall t, r :: r in Rows(a, t) <==> r in Rows(b, t)
  }

  // ---------------------------------------------------------------- no collisions

  /** All maps of this target compare rows as `m` does. */
  ghost predicate OneScheme(jobs: seq<Job>, m: TableMap) {
    forall i | 0 <= i < |jobs| && jobs[i].m.target == m.target :: SameScheme(jobs[i].m, m)
  }

  /** No row at or after position `from` shares a usable key with any other row. */
  ghost predicate CollisionFree(m: TableMap, rows: seq<Rec>, from: nat) {
    forall x, y | 0 <= x < y < |rows| && from <= y :: Keys(m, rows[x].row) * Keys(m, rows[y].row) == {}
  }

  lemma StepKeepsCollisionFree(s: Setup, db: Database, k: nat, n: nat, m: TableMap, from: nat)
    requires Position(s, k, n) && n < |s.jobs[k].rows| && s.execute
    requires s.jobs[k].m.target == m.target ==> SameScheme(s.jobs[k].m, m)
    requires CollisionFree(m, Rows(At(s, db, k, n).db, m.target), from)
    ensures CollisionFree(m, Rows(At(s, db, k, n + 1).db, m.target), from)
  {
    var st, own, src := At(s, db, k, n), s.jobs[k].m, s.jobs[k].rows[n];
    var rows := Rows(st.db, m.target);
    var rows' := Rows(At(s, db, k, n + 1).db, m.target);
    if rows' != rows {
      OpenIndex(s, db, k, n);
      IndexIsExact(own, rows);
      var row := Remapped(own, st.idMaps, src).value;
      assert Matches(Keys(own, row), st.index) == {};
      assert rows' == rows + [Rec(s.answers(k, n).id, row)];
      NewRowSharesNoKey(own, m, rows, st.index, row);
    }
  }

  lemma NewRowSharesNoKey(own: TableMap, m: TableMap, rows: seq<Rec>, index: Index, row: Row)
    requires SameScheme(own, m) && Complete(own, rows, index) && Matches(Keys(own, row), index) == {}
    ensures forall r | r in rows :: Keys(m, r.row) * Keys(m, row) == {}
  {
    KeysOfScheme(own, m, row);
    forall r | r in rows
      ensures Keys(m, r.row) * Keys(m, row) == {}
    {
      KeysOfScheme(own, m, r.row);
      if k :| k in Keys(m, r.row) && k in Keys(m, row) {
        MatchesOf(Keys(own, row), index, index[k]);
      }
    }
  }

  lemma {:induction false} CollisionFreeSoFar(s: Setup, db: Database, k: nat, n: nat, m: TableMap)
    requires Position(s, k, n) && s.execute && OneScheme(s.jobs, m)
    ensures CollisionFree(m, Rows(At(s, db, k, n).db, m.target), |Rows(db, m.target)|)
    decreases k, n
  {
    if n == 0 {
      OpenIsBefore(s, db, k);
      if k > 0 {
        CollisionFreeSoFar(s, db, k - 1, |s.jobs[k - 1].rows|, m);
      }
    } else {
      CollisionFreeSoFar(s, db, k, n - 1, m);
      StepKeepsCollisionFree(s, db, k, n - 1, m, |Rows(db, m.target)|);
    }
  }

  lemma UniqueWithAdded(m: TableMap, base: seq<Rec>, rows: seq<Rec>)
    requires base <= rows && UniqueKeys(m, base) && CollisionFree(m, rows, |base|)
    ensures UniqueKeys(m, rows)
  {
    forall a, b | a in rows && b in rows && Keys(m, a.row) * Keys(m, b.row) != {}
      ensures a.id == b.id
    {
      var x :| 0 <= x < |rows| && rows[x] == a;
      var y :| 0 <= y < |rows| && rows[y] == b;
      assert x < |base| && y < |base| ==> base[x] in base && base[y] in base && base[x] == a && base[y] == b;
      assert Keys(m, a.row) * Keys(m, b.row) == Keys(m, b.row) * Keys(m, a.row);
    }
  }

  /** Natural keys of a table that are unique at the start are unique when the merge is done. */
  lemma MergeKeepsKeysUnique(s: Setup, db: Database, k: nat)
    requires k < |s.jobs| && s.execute && OneScheme(s.jobs, s.jobs[k].m)
    requires UniqueKeys(s.jobs[k].m, Rows(db, s.jobs[k].m.target))
    ensures UniqueKeys(s.jobs[k].m, Rows(Final(s, db).db, s.jobs[k].m.target))
  {
    var last, m := |s.jobs| - 1, s.jobs[k].m;
    FinalIsLast(s, db);
    CollisionFreeSoFar(s, db, last, |s.jobs[last].rows|, m);
    RowsInFinal(s, db, 0, 0, m.target);
    OpenIsBefore(s, db, 0);
    UniqueWithAdded(m, Rows(db, m.target), Rows(Final(s, db).db, m.target));
  }

  // ---------------------------------------------------------------- reading the merged database again

  /** Some rows are merged only with a parent in this table. */
  ghost predicate Needed(jobs: seq<Job>, t: string) {
    exists k | 0 <= k < |jobs| :: NeededBy(jobs[k].m, t)
  }

  ghost predicate NeededBy(m: TableMap, t: string) {
    exists f | 0 <= f < |m.foreignKeys| :: m.foreignKeys[f].onMissing == Skip && m.foreignKeys[f].references == t
  }

  /** The maps of this target share a scheme under which no two rows of it have a key in common. */
  ghost predicate UniqueTable(jobs: seq<Job>, db: Database, t: string) {
    forall k | 0 <= k < |jobs| && jobs[k].m.target == t ::
      OneScheme(jobs, jobs[k].m) && UniqueKeys(jobs[k].m, Rows(db, t))
  }

  /** The table comes back in stored order, or in any order when its natural keys were unique at the start. */
  ghost predicate Settled(first: Setup, db: Database, db': Database, t: string) {
    Rows(db', t) == Rows(Final(first, db).db, t) || UniqueTable(first.jobs, db, t)
  }

  ghost function SettledTables(first: Setup, db: Database, db': Database): iset<string> {
    iset t | Settled(first, db, db', t)
  }

  /**
   * A second run on the rows the first one left, in any order of reading, but for the tables in which
   * some row needs a parent: these are settled.
   */
  ghost predicate Reruns(first: Setup, second: Setup, db: Database, db': Database) {
    && first.jobs == second.jobs && first.execute && DistinctPks(first.jobs)
    && (forall k | 0 <= k < |first.jobs| :: StableKeys(first.jobs[k].m))
    && NoFailure(Final(first, db).log) && SameRows(Final(first, db).db, db')
    && forall t | Needed(first.jobs, t) :: Settled(first, db, db', t)
  }

  /** The second run loads every key the first run's index has, and in a settled table the same row for it. */
  lemma IndexReloaded(first: Setup, second: Setup, db: Database, db': Database, k: nat, n: nat)
    requires Reruns(first, second, db, db') && Position(first, k, n)
    ensures var t := first.jobs[k].m.target;
      Reloaded(At(first, db, k, n).index, IndexOf(first.jobs[k].m, Rows(db', t)), Settled(first, db, db', t))
  {
    OpenIndex(first, db, k, n);
    var m, t := first.jobs[k].m, first.jobs[k].m.target;
    RowsInFinal(first, db, k, n, t);
    KeysReloaded(m, Rows(At(first, db, k, n).db, t), Rows(Final(first, db).db, t), Rows(db', t));
    if Rows(db', t) == Rows(Final(first, db).db, t) {
      PrefixIndex(m, Rows(At(first, db, k, n).db, t), Rows(db', t));
    } else if UniqueTable(first.jobs, db, t) {
      MergeKeepsKeysUnique(first, db, k);
      ReloadedRows(m, Rows(At(first, db, k, n).db, t), Rows(Final(first, db).db, t), Rows(db', t));
    }
  }

  /** The keys of an index do not depend on the order of the rows. */
  lemma KeysReloaded(m: TableMap, rows: seq<Rec>, merged: seq<Rec>, rows': seq<Rec>)
    requires rows <= merged && forall r :: r in merged <==> r in rows'
    ensures IndexOf(m, rows).Keys <= IndexOf(m, rows').Keys
  {
    IndexIsExact(m, rows);
    IndexIsExact(m, rows');
    forall key | key in IndexOf(m, rows)
      ensures key in IndexOf(m, rows')
    {
      assert Holds(m, rows, key, IndexOf(m, rows)[key]);
      var r :| r in rows && key in Keys(m, r.row);
      assert r in merged;
    }
  }

  lemma PrefixIndex(m: TableMap, rows: seq<Rec>, merged: seq<Rec>)
    requires rows <= merged
    ensures SubIndex(IndexOf(m, rows), IndexOf(m, merged))
  {
    IndexGrows(m, rows, merged[|rows|..]);
    assert merged == rows + merged[|rows|..];
  }

  lemma RowsInFinal(s: Setup, db: Database, k: nat, n: nat, t: string)
    requires Position(s, k, n)
    ensures Rows(At(s, db, k, n).db, t) <= Rows(Final(s, db).db, t)
  {
    FinalIsLast(s, db);
    DbGrows(s, db, k, n, |s.jobs| - 1, |s.jobs[|s.jobs| - 1].rows|, t);
  }

  lemma ReloadedRows(m: TableMap, rows: seq<Rec>, merged: seq<Rec>, rows': seq<Rec>)
    requires rows <= merged && UniqueKeys(m, merged) && forall r :: r in merged <==> r in rows'
    ensures SubIndex(IndexOf(m, rows), IndexOf(m, rows'))
  {
    IndexIsExact(m, rows);
    forall key | key in IndexOf(m, rows)
      ensures key in IndexOf(m, rows') && IndexOf(m, rows')[key] == IndexOf(m, rows)[key]
    {
      assert Holds(m, rows, key, IndexOf(m, rows)[key]);
      var r :| r in rows && key in Keys(m, r.row) && r.id == IndexOf(m, rows)[key];
      assert r in merged;
      UniqueIndex(m, rows', r, key);
    }
  }

  lemma {:induction false} LogGrows(s: Setup, db: Database, k: nat, n: nat, k': nat, n': nat)
    requires Position(s, k, n) && Position(s, k', n') && NotAfter(k, n, k', n')
    ensures At(s, db, k, n).log <= At(s, db, k', n').log
    decreases k', n'
  {
    if k == k' && n == n' {
    } else if n' > 0 {
      LogGrows(s, db, k, n, k', n' - 1);
      OneRowLogs(s, db, k', n' - 1);
    } else {
      LogGrows(s, db, k, n, k' - 1, |s.jobs[k' - 1].rows|);
      OpenIsBefore(s, db, k');
    }
  }

  lemma LogInFinal(s: Setup, db: Database, k: nat, n: nat)
    requires Position(s, k, n)
    ensures At(s, db, k, n).log <= Final(s, db).log
  {
    FinalIsLast(s, db);
    LogGrows(s, db, k, n, |s.jobs| - 1, |s.jobs[|s.jobs| - 1].rows|);
  }

  lemma StepDidNotFail(s: Setup, db: Database, k: nat, n: nat)
    requires Position(s, k, n) && n < |s.jobs[k].rows| && NoFailure(Final(s, db).log)
    ensures var log := At(s, db, k, n).log;
      |At(s, db, k, n + 1).log| == |log| + 1 && !At(s, db, k, n + 1).log[|log|].outcome.InsertFailed?
  {
    OneRowLogs(s, db, k, n);
    LogInFinal(s, db, k, n + 1);
    LastOfPrefix(At(s, db, k, n + 1).log, Final(s, db).log);
  }

  lemma LastOfPrefix(log: seq<Entry>, all: seq<Entry>)
    requires log <= all && log != []
    ensures log[|log| - 1] in all
  {
    assert log[|log| - 1] == all[|log| - 1];
  }

  lemma OneRowLogs(s: Setup, db: Database, k: nat, n: nat)
    requires Position(s, k, n) && n < |s.jobs[k].rows|
    ensures |At(s, db, k, n + 1).log| == |At(s, db, k, n).log| + 1 && At(s, db, k, n).log <= At(s, db, k, n + 1).log
  {
    StepGrows(At(s, db, k, n), k, s.jobs[k].m, s.jobs[k].rows[n], s.execute, s.answers(k, n), "");
  }

  ghost predicate Follows(a: State, b: State, m: TableMap, db': Database, ts: iset<string>) {
    SubMaps(b.idMaps, a.idMaps, ts) && b.db == db' && AllQuiet(b.log) && b.index == IndexOf(m, Rows(db', m.target))
  }

  lemma FollowNext(first: Setup, second: Setup, db: Database, db': Database, k: nat, n: nat)
    requires Reruns(first, second, db, db') && Position(first, k, n) && n < |first.jobs[k].rows|
    requires Follows(At(first, db, k, n), At(second, db', k, n), first.jobs[k].m, db', SettledTables(first, db, db'))
    ensures Follows(At(first, db, k, n + 1), At(second, db', k, n + 1), first.jobs[k].m, db',
      SettledTables(first, db, db'))
  {
    var m, ts := first.jobs[k].m, SettledTables(first, db, db');
    IndexReloaded(first, second, db, db', k, n + 1);
    NotYetMapped(first, db, k, n);
    StepDidNotFail(first, db, k, n);
    assert forall f | 0 <= f < |m.foreignKeys| && m.foreignKeys[f].onMissing == Skip ::
        NeededBy(m, m.foreignKeys[f].references);
    FollowRow(first, second, db, db', k, n, ts);
  }

  /** At every moment of the second run: nothing inserted, and its id maps are part of the first run's. */
  lemma {:induction false} SecondRunFollows(first: Setup, second: Setup, db: Database, db': Database, k: nat, n: nat)
    requires Reruns(first, second, db, db') && Position(first, k, n)
    ensures Follows(At(first, db, k, n), At(second, db', k, n), first.jobs[k].m, db', SettledTables(first, db, db'))
    decreases k, n
  {
    if n == 0 {
      if k > 0 {
        SecondRunFollows(first, second, db, db', k - 1, |first.jobs[k - 1].rows|);
      }
      FollowOpen(first, second, db, db', k, SettledTables(first, db, db'));
    } else {
      SecondRunFollows(first, second, db, db', k, n - 1);
      FollowNext(first, second, db, db', k, n - 1);
    }
  }

  lemma FollowOpen(first: Setup, second: Setup, db: Database, db': Database, k: nat, ts: iset<string>)
    requires first.jobs == second.jobs && k < |first.jobs|
    requires k > 0 ==> Follows(Before(first, db, k), Before(second, db', k), first.jobs[k - 1].m, db', ts)
    ensures Follows(At(first, db, k, 0), At(second, db', k, 0), first.jobs[k].m, db', ts)
  {
    OpenBoth(Before(first, db, k), Before(second, db', k), first.jobs[k].m, ts);
  }

  lemma OpenBoth(a: State, b: State, m: TableMap, ts: iset<string>)
    requires SubMaps(b.idMaps, a.idMaps, ts)
    ensures SubMaps(Open(b, m).idMaps, Open(a, m).idMaps, ts)
  {
    forall t | t in ts
      ensures SubMap(IdMap(Open(b, m).idMaps, t), IdMap(Open(a, m).idMaps, t))
    {
      assert SubMap(IdMap(b.idMaps, t), IdMap(a.idMaps, t));
    }
  }

  lemma FollowRow(first: Setup, second: Setup, db: Database, db': Database, k: nat, n: nat, ts: iset<string>)
    requires first.jobs == second.jobs && first.execute && Position(first, k, n) && n < |first.jobs[k].rows|
    requires StableKeys(first.jobs[k].m) && NeedsOnly(first.jobs[k].m, ts)
    requires first.jobs[k].rows[n].pk !in IdMap(At(first, db, k, n).idMaps, first.jobs[k].m.target)
    requires Reloaded(At(first, db, k, n + 1).index, At(second, db', k, n).index, first.jobs[k].m.target in ts)
    requires var log := At(first, db, k, n).log;
      |At(first, db, k, n + 1).log| == |log| + 1 && !At(first, db, k, n + 1).log[|log|].outcome.InsertFailed?
    requires SubMaps(At(second, db', k, n).idMaps, At(first, db, k, n).idMaps, ts)
      && AllQuiet(At(second, db', k, n).log)
    ensures SubMaps(At(second, db', k, n + 1).idMaps, At(first, db, k, n + 1).idMaps, ts)
    ensures AllQuiet(At(second, db', k, n + 1).log)
    ensures At(second, db', k, n + 1).db == At(second, db', k, n).db
    ensures At(second, db', k, n + 1).index == At(second, db', k, n).index
  {
    SecondStep(At(first, db, k, n), At(second, db', k, n), k, first.jobs[k].m, first.jobs[k].rows[n],
               second.execute, first.answers(k, n), second.answers(k, n), ts);
    AppendQuiet(At(second, db', k, n).log, At(second, db', k, n + 1).log);
  }

  lemma AppendQuiet(log: seq<Entry>, log': seq<Entry>)
    requires AllQuiet(log) && |log'| == |log| + 1 && log'[..|log|] == log && Quiet(log'[|log|].outcome)
    ensures AllQuiet(log')
  {
    assert log' == log + [log'[|log|]];
  }

  /**
   * Running the merge, or the preview, again on the merged database: nothing is
   * inserted or reported missing, the database stays as it is, and every id the
   * second run maps in a settled table is the id the first run mapped. The second
   * run may be given any answers, and may read any table in any order, but for
   * tables in which some row needs a parent and that had twin keys at the start.
   */
  lemma SecondRunInsertsNothing(first: Setup, second: Setup, db: Database, db': Database)
    requires Reruns(first, second, db, db')
    ensures AllQuiet(Final(second, db').log)
    ensures Final(second, db').db == db'
    ensures SubMaps(Final(second, db').idMaps, Final(first, db).idMaps, SettledTables(first, db, db'))
  {
    if first.jobs != [] {
      var last := |first.jobs| - 1;
      FinalIsLast(first, db);
      FinalIsLast(second, db');
      SecondRunFollows(first, second, db, db', last, |first.jobs[last].rows|);
    }
  }
}
