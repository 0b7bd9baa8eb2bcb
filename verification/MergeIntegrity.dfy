/** What one merge leaves behind: conservation, no key collisions, and foreign keys that point at real rows. */
module MergeIntegrity {
  import opened Common
  import opened MergeModel
  import opened MergeBasics
  import opened MergeIdempotence

  // ---------------------------------------------------------------- one outcome for each source row

  function Offset(jobs: seq<Job>, k: nat): nat
    requires k <= |jobs|
  {
    if k == 0 then 0 else Offset(jobs, k - 1) + |jobs[k - 1].rows|
  }

  ghost predicate IsEntryOf(e: Entry, jobs: seq<Job>, i: nat, j: nat)
    requires i < |jobs| && j < |jobs[i].rows|
  {
    e.job == i && e.table == jobs[i].m.target && e.pk == jobs[i].rows[j].pk
  }

  ghost predicate LoggedUpTo(log: seq<Entry>, jobs: seq<Job>, k: nat, n: nat)
    requires k <= |jobs| && (n > 0 ==> k < |jobs| && n <= |jobs[k].rows|)
  {
    && |log| == Offset(jobs, k) + n
    && (forall i, j | 0 <= i < k && 0 <= j < |jobs[i].rows| :: InLog(log, jobs, i, j))
    && (forall j | 0 <= j < n :: InLog(log, jobs, k, j))
  }

  ghost predicate InLog(log: seq<Entry>, jobs: seq<Job>, i: nat, j: nat)
    requires i < |jobs| && j < |jobs[i].rows|
  {
    Offset(jobs, i) + j < |log| && IsEntryOf(log[Offset(jobs, i) + j], jobs, i, j)
  }

  lemma {:induction false} LogSoFar(s: Setup, db: Database, k: nat, n: nat)
    requires Position(s, k, n)
    ensures LoggedUpTo(At(s, db, k, n).log, s.jobs, k, n)
    decreases k, n
  {
    if n > 0 {
      LogSoFar(s, db, k, n - 1);
      var st, m, src := At(s, db, k, n - 1), s.jobs[k].m, s.jobs[k].rows[n - 1];
      StepGrows(st, k, m, src, s.execute, s.answers(k, n - 1), "");
      StepLogsRow(st, k, m, src, s.execute, s.answers(k, n - 1));
      LogExtended(st.log, At(s, db, k, n).log, s.jobs, k, n - 1);
    } else if k > 0 {
      LogSoFar(s, db, k - 1, |s.jobs[k - 1].rows|);
    }
  }

  lemma StepLogsRow(st: State, job: nat, m: TableMap, src: Old, execute: bool, answer: Answer)
    ensures var log' := Step(st, job, m, src, execute, answer).log;
      && |log'| == |st.log| + 1
      && log'[|st.log|].job == job && log'[|st.log|].table == m.target && log'[|st.log|].pk == src.pk
  {
    match Remapped(m, st.idMaps, src)
    case None =>
    case Some(row) =>
      if Keys(m, row) == {} {
      } else if Matches(Keys(m, row), st.index) == {} {
        assert Step(st, job, m, src, execute, answer) == Admit(st, job, m, src, row, execute, answer);
      } else {
        assert Step(st, job, m, src, execute, answer) == Skipped(st, job, m, src, row);
      }
  }

  lemma LogExtended(log: seq<Entry>, log': seq<Entry>, jobs: seq<Job>, k: nat, n: nat)
    requires k < |jobs| && n < |jobs[k].rows| && LoggedUpTo(log, jobs, k, n)
    requires |log'| == |log| + 1 && log'[..|log|] == log && IsEntryOf(log'[|log|], jobs, k, n)
    ensures LoggedUpTo(log', jobs, k, n + 1)
  {
    forall i, j | 0 <= i < k && 0 <= j < |jobs[i].rows|
      ensures InLog(log', jobs, i, j)
    {
      assert InLog(log, jobs, i, j);
    }
    forall j | 0 <= j < n + 1
      ensures InLog(log', jobs, k, j)
    {
      if j < n {
        assert InLog(log, jobs, k, j);
      }
    }
  }

  /** Every source row has one line in the log, in source order, and the log holds nothing else. */
  lemma OneOutcomePerRow(s: Setup, db: Database)
    ensures LoggedUpTo(Final(s, db).log, s.jobs, |s.jobs|, 0)
  {
    if s.jobs != [] {
      var last := |s.jobs| - 1;
      LogSoFar(s, db, last, |s.jobs[last].rows|);
    }
  }

  // ---------------------------------------------------------------- conservation

  function InsertedInto(log: seq<Entry>, table: string): nat {
    if log == [] then 0
    else
      var e := log[|log| - 1];
      InsertedInto(log[..|log| - 1], table) + if e.outcome.Inserted? && e.table == table then 1 else 0
  }

  lemma StepConserves(
      st: State, job: nat, m: TableMap, src: Old, execute: bool, answer: Answer, t: string, base: seq<Rec>)
    requires Conserved(base, st, t)
    ensures Conserved(base, Step(st, job, m, src, execute, answer), t)
  {
    var st' := Step(st, job, m, src, execute, answer);
    StepGrows(st, job, m, src, execute, answer, t);
    assert st'.log[..|st'.log| - 1] == st.log;
  }

  ghost predicate Conserved(base: seq<Rec>, st: State, t: string) {
    base <= Rows(st.db, t) && |Rows(st.db, t)| == |base| + InsertedInto(st.log, t)
  }

  lemma {:induction false} ConservedSoFar(s: Setup, db: Database, k: nat, n: nat, t: string)
    requires Position(s, k, n)
    ensures Conserved(Rows(db, t), At(s, db, k, n), t)
    decreases k, n
  {
    if n == 0 {
      if k > 0 {
        ConservedSoFar(s, db, k - 1, |s.jobs[k - 1].rows|, t);
      }
      OpenConserves(s, db, k, t, Rows(db, t));
    } else {
      ConservedSoFar(s, db, k, n - 1, t);
      OneRowConserves(s, db, k, n - 1, t, Rows(db, t));
    }
  }

  lemma OpenConserves(s: Setup, db: Database, k: nat, t: string, base: seq<Rec>)
    requires k < |s.jobs| && (if k > 0 then Conserved(base, Before(s, db, k), t) else base == Rows(db, t))
    ensures Conserved(base, At(s, db, k, 0), t)
  {
    OpenIsBefore(s, db, k);
  }

  lemma OneRowConserves(s: Setup, db: Database, k: nat, n: nat, t: string, base: seq<Rec>)
    requires Position(s, k, n) && n < |s.jobs[k].rows| && Conserved(base, At(s, db, k, n), t)
    ensures Conserved(base, At(s, db, k, n + 1), t)
  {
    StepConserves(At(s, db, k, n), k, s.jobs[k].m, s.jobs[k].rows[n], s.execute, s.answers(k, n), t, base);
  }

  /** Existing rows stay where they are, and each table grows by its number of inserted lines. */
  lemma MergeConserves(s: Setup, db: Database, t: string)
    ensures Rows(db, t) <= Rows(Final(s, db).db, t)
    ensures |Rows(Final(s, db).db, t)| == |Rows(db, t)| + InsertedInto(Final(s, db).log, t)
  {
    if s.jobs != [] {
      var last := |s.jobs| - 1;
      ConservedSoFar(s, db, last, |s.jobs[last].rows|, t);
    }
  }

  // ---------------------------------------------------------------- no collisions

  /** No inserted row shares a usable natural key with any other row of its table, old or inserted. */
  lemma InsertedRowsDoNotCollide(s: Setup, db: Database, k: nat)
    requires k < |s.jobs| && s.execute && OneScheme(s.jobs, s.jobs[k].m)
    ensures var m := s.jobs[k].m; CollisionFree(m, Rows(Final(s, db).db, m.target), |Rows(db, m.target)|)
  {
    var last := |s.jobs| - 1;
    FinalIsLast(s, db);
    CollisionFreeSoFar(s, db, last, |s.jobs[last].rows|, s.jobs[k].m);
  }

  // ---------------------------------------------------------------- what a match is

  lemma MatchesAreRows(m: TableMap, rows: seq<Rec>, keys: set<Key>)
    ensures forall id | id in Matches(keys, IndexOf(m, rows)) ::
      exists r | r in rows :: r.id == id && Keys(m, r.row) * keys != {}
  {
    IndexIsExact(m, rows);
    forall id | id in Matches(keys, IndexOf(m, rows))
      ensures exists r | r in rows :: r.id == id && Keys(m, r.row) * keys != {}
    {
      var k :| k in keys && k in IndexOf(m, rows) && IndexOf(m, rows)[k] == id;
      assert Holds(m, rows, k, id);
      var r :| r in rows && k in Keys(m, r.row) && r.id == id;
      assert k in Keys(m, r.row) * keys;
    }
  }

  // ---------------------------------------------------------------- foreign keys

  ghost predicate Names(o: Outcome, id: Id) {
    (o.Inserted? || o.Duplicate?) && o.id == id
  }

  /** The row that the source row `pk` was matched to or became. */
  ghost predicate Became(log: seq<Entry>, table: string, pk: string, id: Id) {
    exists e | e in log :: e.table == table && e.pk == pk && Names(e.outcome, id)
  }

  ghost predicate HasId(db: Database, table: string, id: Id) {
    exists r | r in Rows(db, table) :: r.id == id
  }

  ghost predicate MapsAreReal(st: State) {
    forall t, pk | pk in IdMap(st.idMaps, t) ::
      HasId(st.db, t, IdMap(st.idMaps, t)[pk]) && Became(st.log, t, pk, IdMap(st.idMaps, t)[pk])
  }

  lemma BecameLater(log: seq<Entry>, log': seq<Entry>, t: string, pk: string, id: Id)
    requires Became(log, t, pk, id) && log <= log'
    ensures Became(log', t, pk, id)
  {
    var e :| e in log && e.table == t && e.pk == pk && Names(e.outcome, id);
    assert e in log';
  }

  lemma HasIdLater(db: Database, db': Database, t: string, id: Id)
    requires HasId(db, t, id) && Rows(db, t) <= Rows(db', t)
    ensures HasId(db', t, id)
  {
    var r :| r in Rows(db, t) && r.id == id;
    assert r in Rows(db', t);
  }

  /** What a row maps is a row of the table, and the log says so. */
  lemma StepMapsReal(s: Setup, db: Database, k: nat, n: nat)
    requires Position(s, k, n) && n < |s.jobs[k].rows| && s.execute && MapsAreReal(At(s, db, k, n))
    ensures MapsAreReal(At(s, db, k, n + 1))
  {
    var st, m, src := At(s, db, k, n), s.jobs[k].m, s.jobs[k].rows[n];
    var st' := At(s, db, k, n + 1);
    StepGrows(st, k, m, src, true, s.answers(k, n), "");
    forall t, pk | pk in IdMap(st'.idMaps, t)
      ensures HasId(st'.db, t, IdMap(st'.idMaps, t)[pk]) && Became(st'.log, t, pk, IdMap(st'.idMaps, t)[pk])
    {
      StepGrows(st, k, m, src, true, s.answers(k, n), t);
      if pk in IdMap(st.idMaps, t) && IdMap(st'.idMaps, t)[pk] == IdMap(st.idMaps, t)[pk] {
        HasIdLater(st.db, st'.db, t, IdMap(st.idMaps, t)[pk]);
        BecameLater(st.log, st'.log, t, pk, IdMap(st.idMaps, t)[pk]);
      } else {
        NewMapping(s, db, k, n, t, pk);
      }
    }
  }

  lemma NewMapping(s: Setup, db: Database, k: nat, n: nat, t: string, pk: string)
    requires Position(s, k, n) && n < |s.jobs[k].rows| && s.execute
    requires var st, st' := At(s, db, k, n), At(s, db, k, n + 1);
      && pk in IdMap(st'.idMaps, t)
      && !(pk in IdMap(st.idMaps, t) && IdMap(st'.idMaps, t)[pk] == IdMap(st.idMaps, t)[pk])
    ensures var st' := At(s, db, k, n + 1);
      HasId(st'.db, t, IdMap(st'.idMaps, t)[pk]) && Became(st'.log, t, pk, IdMap(st'.idMaps, t)[pk])
  {
    var st, m, src := At(s, db, k, n), s.jobs[k].m, s.jobs[k].rows[n];
    OpenIndex(s, db, k, n);
    MappedOutcome(st, k, m, src, s.answers(k, n), t, pk);
  }

  lemma MappedOutcome(st: State, job: nat, m: TableMap, src: Old, answer: Answer, t: string, pk: string)
    requires st.index == IndexOf(m, Rows(st.db, m.target))
    requires var st' := Step(st, job, m, src, true, answer);
      && pk in IdMap(st'.idMaps, t)
      && !(pk in IdMap(st.idMaps, t) && IdMap(st'.idMaps, t)[pk] == IdMap(st.idMaps, t)[pk])
    ensures var st' := Step(st, job, m, src, true, answer);
      HasId(st'.db, t, IdMap(st'.idMaps, t)[pk]) && Became(st'.log, t, pk, IdMap(st'.idMaps, t)[pk])
  {
    var row := Remapped(m, st.idMaps, src).value;
    if Matches(Keys(m, row), st.index) == {} {
      AdmitMaps(st, job, m, src, row, answer);
    } else {
      SkipMaps(st, job, m, src, row, IdMap(Skipped(st, job, m, src, row).idMaps, t)[pk]);
    }
  }

  lemma AdmitMaps(st: State, job: nat, m: TableMap, src: Old, row: Row, answer: Answer)
    requires answer.Assigned?
    ensures var st' := Admit(st, job, m, src, row, true, answer);
      HasId(st'.db, m.target, answer.id) && Became(st'.log, m.target, src.pk, answer.id)
  {
    var st' := Admit(st, job, m, src, row, true, answer);
    assert Rec(answer.id, row) in Rows(st'.db, m.target);
    assert st'.log[|st.log|] in st'.log;
  }

  lemma SkipMaps(st: State, job: nat, m: TableMap, src: Old, row: Row, id: Id)
    requires st.index == IndexOf(m, Rows(st.db, m.target)) && Matches(Keys(m, row), st.index) != {}
    requires Skipped(st, job, m, src, row).idMaps == MapTo(st, m, src, id).idMaps
    requires Skipped(st, job, m, src, row).log[|st.log|].outcome.Duplicate?
    ensures var st' := Skipped(st, job, m, src, row);
      HasId(st'.db, m.target, id) && Became(st'.log, m.target, src.pk, id)
  {
    var st' := Skipped(st, job, m, src, row);
    MatchesAreRows(m, Rows(st.db, m.target), Keys(m, row));
    assert MapTo(st, m, src, id).idMaps[m.target][src.pk] == id;
    assert st'.log[|st.log|] in st'.log;
  }

  lemma {:induction false} MapsRealSoFar(s: Setup, db: Database, k: nat, n: nat)
    requires Position(s, k, n) && s.execute
    ensures MapsAreReal(At(s, db, k, n))
    decreases k, n
  {
    if n > 0 {
      MapsRealSoFar(s, db, k, n - 1);
      StepMapsReal(s, db, k, n - 1);
    } else {
      if k > 0 {
        MapsRealSoFar(s, db, k - 1, |s.jobs[k - 1].rows|);
      }
      OpenMapsReal(Before(s, db, k), s.jobs[k].m);
    }
  }

  lemma OpenMapsReal(st: State, m: TableMap)
    requires MapsAreReal(st)
    ensures MapsAreReal(Open(st, m))
  {
    var st' := Open(st, m);
    forall t, pk | pk in IdMap(st'.idMaps, t)
      ensures HasId(st'.db, t, IdMap(st'.idMaps, t)[pk]) && Became(st'.log, t, pk, IdMap(st'.idMaps, t)[pk])
    {
      assert IdMap(st'.idMaps, t) == IdMap(st.idMaps, t);
    }
  }

  // ---------------------------------------------------------------- where an added row comes from

  /** The line a source row wrote in the log of a whole run. */
  ghost predicate LineIs(log: seq<Entry>, jobs: seq<Job>, k: nat, n: nat, o: Outcome) {
    k < |jobs| && Offset(jobs, k) + n < |log| && log[Offset(jobs, k) + n].outcome == o
  }

  /** One row logs an insertion exactly when it adds the remapped row to its table. */
  lemma InsertStep(st: State, job: nat, m: TableMap, src: Old, answer: Answer)
    ensures var st' := Step(st, job, m, src, true, answer);
      && |st'.log| == |st.log| + 1 && st'.log[..|st.log|] == st.log
      && var o := st'.log[|st.log|].outcome;
      && (forall t | t != m.target :: Rows(st'.db, t) == Rows(st.db, t))
      && (!o.Inserted? ==> Rows(st'.db, m.target) == Rows(st.db, m.target))
      && (o.Inserted? ==>
            && Remapped(m, st.idMaps, src).Some? && answer == Assigned(o.id)
            && Rows(st'.db, m.target) == Rows(st.db, m.target) + [Rec(o.id, Remapped(m, st.idMaps, src).value)])
  {
    match Remapped(m, st.idMaps, src)
    case None =>
    case Some(row) =>
      if Keys(m, row) == {} {
      } else if Matches(Keys(m, row), st.index) == {} {
        assert Step(st, job, m, src, true, answer) == Admit(st, job, m, src, row, true, answer);
      } else {
        assert Step(st, job, m, src, true, answer) == Skipped(st, job, m, src, row);
      }
  }

  /** The row of the run that added row `x` of table `t`. */
  ghost predicate AddsRow(s: Setup, db: Database, t: string, x: nat, i: nat, j: nat) {
    && i < |s.jobs| && j < |s.jobs[i].rows|
    && |Rows(At(s, db, i, j).db, t)| <= x < |Rows(At(s, db, i, j + 1).db, t)|
  }

  lemma {:induction false} AddedWhere(s: Setup, db: Database, k: nat, n: nat, t: string, x: nat)
      returns (i: nat, j: nat)
    requires Position(s, k, n) && |Rows(db, t)| <= x < |Rows(At(s, db, k, n).db, t)|
    ensures AddsRow(s, db, t, x, i, j) && NotAfter(i, j + 1, k, n)
    decreases k, n
  {
    if n == 0 {
      OpenIsBefore(s, db, k);
      i, j := AddedWhere(s, db, k - 1, |s.jobs[k - 1].rows|, t, x);
    } else if x < |Rows(At(s, db, k, n - 1).db, t)| {
      i, j := AddedWhere(s, db, k, n - 1, t, x);
    } else {
      i, j := k, n - 1;
    }
  }

  /** Row `x` of table `t` is what source row `j` of map `i` was remapped to, and that row's line is its insertion. */
  ghost predicate BuiltFrom(s: Setup, db: Database, t: string, x: nat, i: nat, j: nat)
    requires x < |Rows(Final(s, db).db, t)|
  {
    && i < |s.jobs| && j < |s.jobs[i].rows| && s.jobs[i].m.target == t
    && LineIs(Final(s, db).log, s.jobs, i, j, Inserted(Rows(Final(s, db).db, t)[x].id))
    && Remapped(s.jobs[i].m, At(s, db, i, j).idMaps, s.jobs[i].rows[j]) == Some(Rows(Final(s, db).db, t)[x].row)
  }

  lemma LineInFinal(s: Setup, db: Database, i: nat, j: nat)
    requires Position(s, i, j) && j < |s.jobs[i].rows|
    ensures var log, log' := At(s, db, i, j).log, At(s, db, i, j + 1).log;
      |log'| == |log| + 1 && LineIs(Final(s, db).log, s.jobs, i, j, log'[|log|].outcome)
  {
    LogSoFar(s, db, i, j);
    OneRowLogs(s, db, i, j);
    LogInFinal(s, db, i, j + 1);
  }

  lemma AddsRowBuilds(s: Setup, db: Database, t: string, x: nat, i: nat, j: nat)
    requires s.execute && AddsRow(s, db, t, x, i, j)
    ensures x < |Rows(Final(s, db).db, t)| && BuiltFrom(s, db, t, x, i, j)
  {
    InsertStep(At(s, db, i, j), i, s.jobs[i].m, s.jobs[i].rows[j], s.answers(i, j));
    RowsInFinal(s, db, i, j + 1, t);
    LineInFinal(s, db, i, j);
    var rows, merged := Rows(At(s, db, i, j + 1).db, t), Rows(Final(s, db).db, t);
    assert merged[x] == rows[x];
  }

  /**
   * Every row the merge added is a source row of its table as it was remapped when
   * its turn came, and the line of that source row is its insertion.
   */
  lemma AddedRowsAreSourceRows(s: Setup, db: Database, t: string, x: nat)
    requires s.execute && |Rows(db, t)| <= x < |Rows(Final(s, db).db, t)|
    ensures exists i: nat, j: nat :: BuiltFrom(s, db, t, x, i, j)
  {
    FinalIsLast(s, db);
    var last := |s.jobs| - 1;
    var i, j := AddedWhere(s, db, last, |s.jobs[last].rows|, t, x);
    AddsRowBuilds(s, db, t, x, i, j);
  }

  // ---------------------------------------------------------------- what its foreign keys hold

  /** The cell a foreign key had in the source. */
  function SourceKey(fk: ForeignKey, src: Old): Option<string> {
    if fk.column in src.cells then src.cells[fk.column] else None
  }

  /** The old parent was neither matched nor inserted so far. */
  ghost predicate NoParent(fk: ForeignKey, src: Old, log: seq<Entry>) {
    SourceKey(fk, src).Some? && forall id :: !Became(log, fk.references, SourceKey(fk, src).value, id)
  }

  /** What remapping leaves in the column of a foreign key. */
  lemma {:induction false} ResolvedCell(m: TableMap, n: nat, f: nat, src: Old, idMaps: IdMaps)
    requires f < n <= |m.foreignKeys| && OneKeyPerColumn(m) && Resolve(m.foreignKeys, n, idMaps, Lift(src.cells)).Some?
    ensures var fk, row := m.foreignKeys[f], Resolve(m.foreignKeys, n, idMaps, Lift(src.cells)).value;
      Cell(row, fk.column) == match SourceKey(fk, src)
        case None => Null
        case Some(pk) => if pk in IdMap(idMaps, fk.references) then Ref(IdMap(idMaps, fk.references)[pk]) else Null
    ensures var fk, row := m.foreignKeys[f], Resolve(m.foreignKeys, n, idMaps, Lift(src.cells)).value;
      SourceKey(fk, src).Some? && Cell(row, fk.column) == Null ==> fk.onMissing == SetNull
  {
    if f < n - 1 {
      ResolvedCell(m, n - 1, f, src, idMaps);
    } else {
      ResolveKeepsOthers(m, n - 1, idMaps, Lift(src.cells), m.foreignKeys[f].column);
    }
  }

  /** A foreign key that is not null is an existing row, the one its old parent was matched to or became. */
  ghost predicate Points(fk: ForeignKey, src: Old, v: Value, log: seq<Entry>, db: Database) {
    v != Null ==>
      && v.Ref? && HasId(db, fk.references, v.id) && SourceKey(fk, src).Some?
      && Became(log, fk.references, SourceKey(fk, src).value, v.id)
  }

  /** A foreign key is null exactly when it was in the source, or may become null and its old parent is not there. */
  ghost predicate NullExplained(fk: ForeignKey, src: Old, v: Value, log: seq<Entry>) {
    v == Null <==> SourceKey(fk, src) == None || (fk.onMissing == SetNull && NoParent(fk, src, log))
  }

  /** The first `n` foreign keys point, and columns that are still text hold what the source row held. */
  ghost predicate AllPoint(m: TableMap, n: nat, src: Old, row: Row, st: State)
    requires n <= |m.foreignKeys|
  {
    && (forall f | 0 <= f < n :: Points(m.foreignKeys[f], src, Cell(row, m.foreignKeys[f].column), st.log, st.db))
    && (forall c | c in row && row[c].Text? :: c in src.cells && src.cells[c] == Some(row[c].text))
  }

  lemma {:induction false} ResolvedPoint(m: TableMap, n: nat, src: Old, st: State)
    requires n <= |m.foreignKeys| && MapsAreReal(st) && Resolve(m.foreignKeys, n, st.idMaps, Lift(src.cells)).Some?
    ensures AllPoint(m, n, src, Resolve(m.foreignKeys, n, st.idMaps, Lift(src.cells)).value, st)
  {
    if n > 0 {
      ResolvedPoint(m, n - 1, src, st);
      PointOne(m, n - 1, src, Resolve(m.foreignKeys, n - 1, st.idMaps, Lift(src.cells)).value, st);
    }
  }

  lemma PointOne(m: TableMap, n: nat, src: Old, row: Row, st: State)
    requires n < |m.foreignKeys| && MapsAreReal(st) && AllPoint(m, n, src, row, st)
    requires ResolveOne(m.foreignKeys[n], st.idMaps, row).Some?
    ensures AllPoint(m, n + 1, src, ResolveOne(m.foreignKeys[n], st.idMaps, row).value, st)
  {
    var fk := m.foreignKeys[n];
    var row' := ResolveOne(fk, st.idMaps, row).value;
    var v := Cell(row, fk.column);
    if v.Text? && Lookup(st.idMaps, fk.references, v).Some? {
      assert v.text in IdMap(st.idMaps, fk.references);
    }
    forall f | 0 <= f < n
      ensures Points(m.foreignKeys[f], src, Cell(row', m.foreignKeys[f].column), st.log, st.db)
    {
      assert Points(m.foreignKeys[f], src, Cell(row, m.foreignKeys[f].column), st.log, st.db);
    }
  }

  lemma RemappedPoints(s: Setup, db: Database, i: nat, j: nat, f: nat)
    requires Position(s, i, j) && j < |s.jobs[i].rows| && s.execute && f < |s.jobs[i].m.foreignKeys|
    requires Remapped(s.jobs[i].m, At(s, db, i, j).idMaps, s.jobs[i].rows[j]).Some?
    ensures var st, m, src := At(s, db, i, j), s.jobs[i].m, s.jobs[i].rows[j];
      var fk := m.foreignKeys[f];
      var v := Cell(Remapped(m, st.idMaps, src).value, fk.column);
      Points(fk, src, v, st.log, st.db) && (OneKeyPerColumn(m) ==> NullExplained(fk, src, v, st.log))
  {
    var st, m, src := At(s, db, i, j), s.jobs[i].m, s.jobs[i].rows[j];
    MapsRealSoFar(s, db, i, j);
    ResolvedPoint(m, |m.foreignKeys|, src, st);
    if OneKeyPerColumn(m) {
      ResolvedCell(m, |m.foreignKeys|, f, src, st.idMaps);
      if SourceKey(m.foreignKeys[f], src).Some? {
        MappedIffParent(s, db, i, j, m.foreignKeys[f].references, SourceKey(m.foreignKeys[f], src).value);
      }
    }
  }

  /** An old key is mapped exactly when some row was matched to it or inserted for it. */
  lemma MappedIffParent(s: Setup, db: Database, k: nat, n: nat, t: string, pk: string)
    requires Position(s, k, n) && MapsAreReal(At(s, db, k, n))
    ensures var st := At(s, db, k, n);
      pk in IdMap(st.idMaps, t) <==> exists id :: Became(st.log, t, pk, id)
  {
    var st := At(s, db, k, n);
    if id :| Became(st.log, t, pk, id) {
      LoggedIsMapped(s, db, k, n, t, pk, id);
    }
    if pk in IdMap(st.idMaps, t) {
      assert Became(st.log, t, pk, IdMap(st.idMaps, t)[pk]);
    }
  }

  /**
   * Every foreign key of a row the merge added, unless null, is a row of the merged database: the one
   * its old parent had been matched to or had become. It is null exactly when it was null in the source,
   * or may become null and its old parent had been neither matched nor inserted.
   */
  lemma ForeignKeysPointAtParents(s: Setup, db: Database, t: string, x: nat, i: nat, j: nat, f: nat)
    requires s.execute && x < |Rows(Final(s, db).db, t)| && BuiltFrom(s, db, t, x, i, j)
      && f < |s.jobs[i].m.foreignKeys|
    ensures var fk, src, log := s.jobs[i].m.foreignKeys[f], s.jobs[i].rows[j], At(s, db, i, j).log;
      var v := Cell(Rows(Final(s, db).db, t)[x].row, fk.column);
      Points(fk, src, v, log, Final(s, db).db) && (OneKeyPerColumn(s.jobs[i].m) ==> NullExplained(fk, src, v, log))
  {
    var st, fk := At(s, db, i, j), s.jobs[i].m.foreignKeys[f];
    var v := Cell(Rows(Final(s, db).db, t)[x].row, fk.column);
    RemappedPoints(s, db, i, j, f);
    if v != Null {
      RowsInFinal(s, db, i, j, fk.references);
      HasIdLater(st.db, Final(s, db).db, fk.references, v.id);
    }
  }

  /** With distinct source keys "the row it was matched to or became" names one row. */
  lemma ParentIsUnique(s: Setup, db: Database, t: string, pk: string, id: Id, id': Id)
    requires DistinctPks(s.jobs) && Became(Final(s, db).log, t, pk, id) && Became(Final(s, db).log, t, pk, id')
    ensures id == id'
  {
    var log := Final(s, db).log;
    OneOutcomePerRow(s, db);
    var a :| 0 <= a < |log| && log[a].table == t && log[a].pk == pk
             && Names(log[a].outcome, id);
    var b :| 0 <= b < |log| && log[b].table == t && log[b].pk == pk
             && Names(log[b].outcome, id');
    var i, j := RowOfLine(log, s.jobs, |s.jobs|, a);
    var i', j' := RowOfLine(log, s.jobs, |s.jobs|, b);
  }

  lemma {:induction false} RowOfLine(log: seq<Entry>, jobs: seq<Job>, k: nat, a: nat) returns (i: nat, j: nat)
    requires k <= |jobs| && LoggedUpTo(log, jobs, |jobs|, 0) && a < Offset(jobs, k)
    ensures i < |jobs| && j < |jobs[i].rows| && a == Offset(jobs, i) + j && a < |log| && IsEntryOf(log[a], jobs, i, j)
  {
    if a >= Offset(jobs, k - 1) {
      i, j := k - 1, a - Offset(jobs, k - 1);
      assert InLog(log, jobs, i, j);
    } else {
      i, j := RowOfLine(log, jobs, k - 1, a);
    }
  }

  // ---------------------------------------------------------------- exactly which children are skipped

  ghost predicate Orphan(fk: ForeignKey, src: Old, idMaps: IdMaps) {
    fk.onMissing == Skip && SourceKey(fk, src).Some? && SourceKey(fk, src).value !in IdMap(idMaps, fk.references)
  }

  lemma {:induction false} UnresolvedIffOrphan(m: TableMap, n: nat, src: Old, idMaps: IdMaps)
    requires n <= |m.foreignKeys| && OneKeyPerColumn(m)
    ensures Resolve(m.foreignKeys, n, idMaps, Lift(src.cells)) == None
      <==> exists f :: 0 <= f < n && Orphan(m.foreignKeys[f], src, idMaps)
  {
    if n > 0 {
      UnresolvedIffOrphan(m, n - 1, src, idMaps);
      if Resolve(m.foreignKeys, n - 1, idMaps, Lift(src.cells)).Some? {
        ResolveKeepsOthers(m, n - 1, idMaps, Lift(src.cells), m.foreignKeys[n - 1].column);
        var so := Resolve(m.foreignKeys, n - 1, idMaps, Lift(src.cells)).value;
        assert Orphan(m.foreignKeys[n - 1], src, idMaps) <==> ResolveOne(m.foreignKeys[n - 1], idMaps, so) == None;
      }
    }
  }

  ghost predicate LoggedMeansMapped(st: State, t: string, pk: string, id: Id) {
    Became(st.log, t, pk, id) ==> pk in IdMap(st.idMaps, t)
  }

  lemma LoggedNext(s: Setup, db: Database, k: nat, n: nat, t: string, pk: string, id: Id)
    requires Position(s, k, n) && n < |s.jobs[k].rows| && LoggedMeansMapped(At(s, db, k, n), t, pk, id)
    ensures LoggedMeansMapped(At(s, db, k, n + 1), t, pk, id)
  {
    var st, m, src := At(s, db, k, n), s.jobs[k].m, s.jobs[k].rows[n];
    if Became(st.log, t, pk, id) {
      StepKeepsMapped(st, k, m, src, s.execute, s.answers(k, n), t, pk);
    } else if Became(At(s, db, k, n + 1).log, t, pk, id) {
      StepMapsLogged(st, k, m, src, s.execute, s.answers(k, n), t, pk, id);
    }
  }

  lemma LoggedOpen(s: Setup, db: Database, k: nat, t: string, pk: string, id: Id)
    requires k < |s.jobs| && (k > 0 ==> LoggedMeansMapped(Before(s, db, k), t, pk, id))
    ensures LoggedMeansMapped(At(s, db, k, 0), t, pk, id)
  {
    OpenIsBefore(s, db, k);
  }

  lemma {:induction false} LoggedIsMapped(s: Setup, db: Database, k: nat, n: nat, t: string, pk: string, id: Id)
    requires Position(s, k, n)
    ensures LoggedMeansMapped(At(s, db, k, n), t, pk, id)
    decreases k, n
  {
    if n > 0 {
      LoggedIsMapped(s, db, k, n - 1, t, pk, id);
      LoggedNext(s, db, k, n - 1, t, pk, id);
    } else {
      if k > 0 {
        LoggedIsMapped(s, db, k - 1, |s.jobs[k - 1].rows|, t, pk, id);
      }
      LoggedOpen(s, db, k, t, pk, id);
    }
  }

  lemma StepKeepsMapped(st: State, job: nat, m: TableMap, src: Old, execute: bool, answer: Answer, t: string,
      pk: string)
    requires pk in IdMap(st.idMaps, t)
    ensures pk in IdMap(Step(st, job, m, src, execute, answer).idMaps, t)
  {
  }

  lemma StepMapsLogged(st: State, job: nat, m: TableMap, src: Old, execute: bool, answer: Answer, t: string,
      pk: string, id: Id)
    requires Became(Step(st, job, m, src, execute, answer).log, t, pk, id) && !Became(st.log, t, pk, id)
    ensures pk in IdMap(Step(st, job, m, src, execute, answer).idMaps, t)
  {
    var log' := Step(st, job, m, src, execute, answer).log;
    StepGrows(st, job, m, src, execute, answer, "");
    StepLogsRow(st, job, m, src, execute, answer);
    assert log' == st.log + [log'[|st.log|]];
    assert Names(log'[|st.log|].outcome, id);
    OutcomeIsMapped(st, job, m, src, execute, answer);
  }

  lemma OutcomeIsMapped(st: State, job: nat, m: TableMap, src: Old, execute: bool, answer: Answer)
    ensures var st' := Step(st, job, m, src, execute, answer);
      && |st'.log| == |st.log| + 1
      && (st'.log[|st.log|].outcome == UnresolvedFk <==> Remapped(m, st.idMaps, src) == None)
      && (st'.log[|st.log|].outcome.Inserted? || st'.log[|st.log|].outcome.Duplicate?
          ==> src.pk in IdMap(st'.idMaps, m.target))
  {
    match Remapped(m, st.idMaps, src)
    case None =>
    case Some(row) =>
      if Keys(m, row) == {} {
      } else if Matches(Keys(m, row), st.index) == {} {
        assert Step(st, job, m, src, execute, answer) == Admit(st, job, m, src, row, execute, answer);
      } else {
        assert Step(st, job, m, src, execute, answer) == Skipped(st, job, m, src, row);
      }
  }

  /** A required foreign key whose old parent was neither matched nor inserted so far. */
  ghost predicate ParentSkipped(fk: ForeignKey, src: Old, log: seq<Entry>) {
    fk.onMissing == Skip && NoParent(fk, src, log)
  }

  /** A row is skipped for an unresolved foreign key exactly when the parent of a required one was skipped. */
  lemma SkippedIffParentSkipped(s: Setup, db: Database, k: nat, n: nat)
    requires Position(s, k, n) && n < |s.jobs[k].rows| && s.execute && OneKeyPerColumn(s.jobs[k].m)
    ensures var log, log' := At(s, db, k, n).log, At(s, db, k, n + 1).log;
      && |log'| == |log| + 1
      && (log'[|log|].outcome == UnresolvedFk <==>
            exists f :: 0 <= f < |s.jobs[k].m.foreignKeys|
                        && ParentSkipped(s.jobs[k].m.foreignKeys[f], s.jobs[k].rows[n], log))
  {
    var st, m, src := At(s, db, k, n), s.jobs[k].m, s.jobs[k].rows[n];
    OutcomeIsMapped(st, k, m, src, s.execute, s.answers(k, n));
    UnresolvedIffOrphan(m, |m.foreignKeys|, src, st.idMaps);
    MapsRealSoFar(s, db, k, n);
    forall f | 0 <= f < |m.foreignKeys|
      ensures Orphan(m.foreignKeys[f], src, st.idMaps) <==> ParentSkipped(m.foreignKeys[f], src, st.log)
    {
      if SourceKey(m.foreignKeys[f], src).Some? {
        MappedIffParent(s, db, k, n, m.foreignKeys[f].references, SourceKey(m.foreignKeys[f], src).value);
      }
    }
  }
}
