/** Runs in which each map has at most one source row, and what becomes of that row. */
module MergeStaging {
  import opened Common
  import opened MergeModel
  import opened MergeBasics
  import opened MergeIdempotence
  import opened MergeIntegrity

  /** The old key of every source row; rows name their parents by it. */
  const ROW_KEY := "1"

  type Cells = map<string, Option<string>>

  // ---------------------------------------------------------------- one row, its parents known

  ghost predicate MapsTo(idMaps: IdMaps, t: string, id: Id) {
    ROW_KEY in IdMap(idMaps, t) && IdMap(idMaps, t)[ROW_KEY] == id
  }

  /** The cells name every required parent, and no other. */
  ghost predicate Proper(m: TableMap, cells: Cells) {
    forall f | 0 <= f < |m.foreignKeys| ::
      if m.foreignKeys[f].onMissing == Skip
      then m.foreignKeys[f].column in cells && cells[m.foreignKeys[f].column] == Some(ROW_KEY)
      else m.foreignKeys[f].column !in cells
  }

  /** The run has mapped each required parent to the known id. */
  ghost predicate ParentsMapped(m: TableMap, idMaps: IdMaps, known: string -> Id) {
    forall f | 0 <= f < |m.foreignKeys| && m.foreignKeys[f].onMissing == Skip ::
      MapsTo(idMaps, m.foreignKeys[f].references, known(m.foreignKeys[f].references))
  }

  ghost predicate SameParents(m: TableMap, known: string -> Id, known': string -> Id) {
    forall f | 0 <= f < |m.foreignKeys| && m.foreignKeys[f].onMissing == Skip ::
      known(m.foreignKeys[f].references) == known'(m.foreignKeys[f].references)
  }

  ghost function RequiredTables(m: TableMap): set<string> {
    set f | 0 <= f < |m.foreignKeys| && m.foreignKeys[f].onMissing == Skip :: m.foreignKeys[f].references
  }

  ghost function IdMapsFor(m: TableMap, known: string -> Id): IdMaps {
    map t | t in RequiredTables(m) :: map[ROW_KEY := known(t)]
  }

  lemma ForKnown(m: TableMap, known: string -> Id)
    ensures ParentsMapped(m, IdMapsFor(m, known), known)
  {
    forall f | 0 <= f < |m.foreignKeys| && m.foreignKeys[f].onMissing == Skip
      ensures m.foreignKeys[f].references in RequiredTables(m)
    {
    }
  }

  lemma Resolves(m: TableMap, cells: Cells, idMaps: IdMaps, known: string -> Id)
    requires OneKeyPerColumn(m) && Proper(m, cells) && ParentsMapped(m, idMaps, known)
    ensures Remapped(m, idMaps, Old(ROW_KEY, cells)).Some?
  {
    UnresolvedIffOrphan(m, |m.foreignKeys|, Old(ROW_KEY, cells), idMaps);
    forall f | 0 <= f < |m.foreignKeys|
      ensures !Orphan(m.foreignKeys[f], Old(ROW_KEY, cells), idMaps)
    {
    }
  }

  /** Id maps that know the same parents remap alike. */
  lemma {:induction false} ResolvesAlike(m: TableMap, n: nat, cells: Cells, a: IdMaps, b: IdMaps, known: string -> Id)
    requires n <= |m.foreignKeys| && OneKeyPerColumn(m) && Proper(m, cells)
    requires ParentsMapped(m, a, known) && ParentsMapped(m, b, known)
    ensures Resolve(m.foreignKeys, n, a, Lift(cells)) == Resolve(m.foreignKeys, n, b, Lift(cells))
  {
    if n > 0 {
      ResolvesAlike(m, n - 1, cells, a, b, known);
      var fk, so := m.foreignKeys[n - 1], Resolve(m.foreignKeys, n - 1, a, Lift(cells));
      if so.Some? {
        ResolveKeepsOthers(m, n - 1, a, Lift(cells), fk.column);
        assert fk.onMissing == Skip ==> MapsTo(a, fk.references, known(fk.references));
        assert fk.onMissing == Skip ==> MapsTo(b, fk.references, known(fk.references));
      }
    }
  }

  /** The row these cells are remapped to. */
  ghost function RowOf(m: TableMap, cells: Cells, known: string -> Id): Row {
    var row := Remapped(m, IdMapsFor(m, known), Old(ROW_KEY, cells));
    if row.Some? then row.value else map[]
  }

  lemma RowIs(m: TableMap, cells: Cells, idMaps: IdMaps, known: string -> Id)
    requires OneKeyPerColumn(m) && Proper(m, cells) && ParentsMapped(m, idMaps, known)
    ensures Remapped(m, idMaps, Old(ROW_KEY, cells)) == Some(RowOf(m, cells, known))
  {
    ForKnown(m, known);
    Resolves(m, cells, IdMapsFor(m, known), known);
    ResolvesAlike(m, |m.foreignKeys|, cells, idMaps, IdMapsFor(m, known), known);
  }

  /** Only the required parents matter. */
  lemma RowOfSame(m: TableMap, cells: Cells, known: string -> Id, known': string -> Id)
    requires OneKeyPerColumn(m) && Proper(m, cells) && SameParents(m, known, known')
    ensures RowOf(m, cells, known) == RowOf(m, cells, known')
  {
    ForKnown(m, known);
    ForKnown(m, known');
    assert ParentsMapped(m, IdMapsFor(m, known), known');
    RowIs(m, cells, IdMapsFor(m, known), known');
  }

  lemma RowHoldsParent(m: TableMap, cells: Cells, known: string -> Id, f: nat)
    requires OneKeyPerColumn(m) && Proper(m, cells)
    requires f < |m.foreignKeys| && m.foreignKeys[f].onMissing == Skip
    ensures Cell(RowOf(m, cells, known), m.foreignKeys[f].column) == Ref(known(m.foreignKeys[f].references))
  {
    ForKnown(m, known);
    Resolves(m, cells, IdMapsFor(m, known), known);
    ResolvedCell(m, |m.foreignKeys|, f, Old(ROW_KEY, cells), IdMapsFor(m, known));
  }

  lemma RowKeepsOthers(m: TableMap, cells: Cells, known: string -> Id, c: string)
    requires OneKeyPerColumn(m) && Proper(m, cells)
    requires forall f | 0 <= f < |m.foreignKeys| :: m.foreignKeys[f].column != c
    ensures Cell(RowOf(m, cells, known), c) == Cell(Lift(cells), c)
  {
    ForKnown(m, known);
    Resolves(m, cells, IdMapsFor(m, known), known);
    ResolveKeepsOthers(m, |m.foreignKeys|, IdMapsFor(m, known), Lift(cells), c);
  }

  // ---------------------------------------------------------------- what becomes of a row

  /** The row is a duplicate of row `id` of the table, or is new and gets that id. */
  ghost predicate Takes(m: TableMap, rows: seq<Rec>, row: Row, id: Id, given: Id) {
    && Keys(m, row) != {}
    && (Matches(Keys(m, row), IndexOf(m, rows)) == {id}
        || (Matches(Keys(m, row), IndexOf(m, rows)) == {} && id == given))
  }

  ghost predicate Inserts(log: seq<Entry>) {
    exists e | e in log :: e.outcome.Inserted?
  }

  /** What a row does to the state: it is mapped to `id`, and its table gains `add`. */
  ghost predicate Taken(st: State, st': State, t: string, id: Id, add: seq<Rec>) {
    && MapsTo(st'.idMaps, t, id) && Rows(st'.db, t) == Rows(st.db, t) + add
    && (forall u | u != t :: IdMap(st'.idMaps, u) == IdMap(st.idMaps, u) && Rows(st'.db, u) == Rows(st.db, u))
    && (NoFailure(st.log) ==> NoFailure(st'.log)) && (Inserts(st.log) || add != [] ==> Inserts(st'.log))
  }

  lemma LogPlus(log: seq<Entry>, log': seq<Entry>, e: Entry)
    requires log' == log + [e]
    ensures NoFailure(log) && !e.outcome.InsertFailed? ==> NoFailure(log')
    ensures Inserts(log) || e.outcome.Inserted? ==> Inserts(log')
  {
    assert log'[|log|] == e && e in log';
    if x :| x in log && x.outcome.Inserted? {
      assert x in log';
    }
  }

  lemma DuplicateTaken(st: State, k: nat, m: TableMap, src: Old, row: Row, id: Id, given: Id)
    requires src.pk == ROW_KEY && Remapped(m, st.idMaps, src) == Some(row) && Keys(m, row) != {}
    requires Matches(Keys(m, row), st.index) == {id}
    ensures Taken(st, Step(st, k, m, src, true, Assigned(given)), m.target, id, [])
  {
    SkipEffect(st, k, m, src, true, Assigned(given), row);
    var st' := Step(st, k, m, src, true, Assigned(given));
    assert st'.log == st.log + [st'.log[|st.log|]];
    LogPlus(st.log, st'.log, st'.log[|st.log|]);
  }

  lemma NewTaken(st: State, k: nat, m: TableMap, src: Old, row: Row, given: Id)
    requires src.pk == ROW_KEY && Remapped(m, st.idMaps, src) == Some(row) && Keys(m, row) != {}
    requires Matches(Keys(m, row), st.index) == {}
    ensures Taken(st, Step(st, k, m, src, true, Assigned(given)), m.target, given, [Rec(given, row)])
  {
    var st' := Admit(st, k, m, src, row, true, Assigned(given));
    assert Step(st, k, m, src, true, Assigned(given)) == st';
    assert st'.log == st.log + [st'.log[|st.log|]];
    LogPlus(st.log, st'.log, st'.log[|st.log|]);
  }

  // ---------------------------------------------------------------- one row for each map

  /** At most one row for each map, the id each table's row will have, and the id the database gives to new rows. */
  datatype Act = Act(ms: seq<TableMap>, cells: seq<Option<Cells>>, known: string -> Id, given: Id) {
    predicate Plays(j: nat) {
      j < |ms| && j < |cells| && cells[j].Some?
    }

    function Jobs(): seq<Job> {
      seq(|ms|, k requires 0 <= k < |ms| =>
        Job(ms[k], if k < |cells| && cells[k].Some? then [Old(ROW_KEY, cells[k].value)] else []))
    }

    ghost function Plan(): Setup {
      Setup(Jobs(), true, (i, j) => Assigned(given))
    }

    ghost function RowFor(j: nat): Row
      requires Plays(j)
    {
      RowOf(ms[j], cells[j].value, known)
    }

    /** What the table of map `j` gains. */
    ghost function Add(db: Database, j: nat): seq<Rec>
      requires Plays(j)
    {
      if Matches(Keys(ms[j], RowFor(j)), IndexOf(ms[j], Rows(db, ms[j].target))) == {}
      then [Rec(given, RowFor(j))] else []
    }

    ghost predicate PlaysBefore(k: nat, t: string) {
      exists j: nat :: j < k && Plays(j) && ms[j].target == t
    }

    ghost predicate ParentsPlay(j: nat)
      requires j < |ms|
    {
      forall f | 0 <= f < |ms[j].foreignKeys| && ms[j].foreignKeys[f].onMissing == Skip ::
        PlaysBefore(j, ms[j].foreignKeys[f].references)
    }

    /** The row of map `j` names rows of this act, and is taken as known. */
    ghost predicate StagedAt(db: Database, j: nat)
      requires Plays(j)
    {
      && OneKeyPerColumn(ms[j]) && Proper(ms[j], cells[j].value) && ParentsPlay(j)
      && Takes(ms[j], Rows(db, ms[j].target), RowFor(j), known(ms[j].target), given)
    }

    ghost predicate Staged(db: Database) {
      && (forall k: nat, k': nat | k < k' && Plays(k) && Plays(k') :: ms[k].target != ms[k'].target)
      && forall j: nat | Plays(j) :: StagedAt(db, j)
    }

    ghost predicate MappedUpTo(k: nat, st: State) {
      forall j: nat | j < k && Plays(j) :: MapsTo(st.idMaps, ms[j].target, known(ms[j].target))
    }

    ghost predicate StoredUpTo(db: Database, k: nat, st: State) {
      forall j: nat | j < k && Plays(j) :: Rows(st.db, ms[j].target) == Rows(db, ms[j].target) + Add(db, j)
    }

    ghost predicate OthersAsBefore(db: Database, k: nat, st: State) {
      forall t | !PlaysBefore(k, t) :: Rows(st.db, t) == Rows(db, t)
    }

    ghost predicate LoggedUpTo(db: Database, k: nat, st: State) {
      NoFailure(st.log) && forall j: nat | j < k && Plays(j) && Add(db, j) != [] :: Inserts(st.log)
    }

    /** The rows of the first `k` maps have been taken. */
    ghost predicate Played(db: Database, k: nat, st: State) {
      MappedUpTo(k, st) && StoredUpTo(db, k, st) && OthersAsBefore(db, k, st) && LoggedUpTo(db, k, st)
    }
  }

  // ---------------------------------------------------------------- the run of an act

  lemma FreshTarget(a: Act, db: Database, k: nat)
    requires a.Staged(db) && a.Plays(k)
    ensures !a.PlaysBefore(k, a.ms[k].target)
  {
  }

  lemma OpenPlayed(a: Act, db: Database, k: nat, st: State)
    requires k < |a.ms| && a.Played(db, k, st)
    ensures a.Played(db, k, Open(st, a.ms[k]))
  {
    var st' := Open(st, a.ms[k]);
    forall j: nat | j < k && a.Plays(j)
      ensures MapsTo(st'.idMaps, a.ms[j].target, a.known(a.ms[j].target))
    {
      OpenKeepsMap(st, a.ms[k], a.ms[j].target);
    }
    assert st'.db == st.db && st'.log == st.log;
  }

  lemma OpenKeepsMap(st: State, m: TableMap, t: string)
    ensures IdMap(Open(st, m).idMaps, t) == IdMap(st.idMaps, t)
  {
  }

  lemma ParentsAreMapped(a: Act, db: Database, k: nat, st: State)
    requires a.Staged(db) && a.Plays(k) && a.Played(db, k, st)
    ensures ParentsMapped(a.ms[k], st.idMaps, a.known)
  {
    var m := a.ms[k];
    assert a.StagedAt(db, k);
    forall f | 0 <= f < |m.foreignKeys| && m.foreignKeys[f].onMissing == Skip
      ensures MapsTo(st.idMaps, m.foreignKeys[f].references, a.known(m.foreignKeys[f].references))
    {
      assert a.PlaysBefore(k, m.foreignKeys[f].references);
    }
  }

  /** A row of the act is taken as known. */
  lemma RowTaken(a: Act, db: Database, k: nat, st: State)
    requires a.Staged(db) && a.Plays(k) && a.Played(db, k, st)
    requires st.index == IndexOf(a.ms[k], Rows(st.db, a.ms[k].target))
    ensures Taken(st, Step(st, k, a.ms[k], Old(ROW_KEY, a.cells[k].value), true, Assigned(a.given)),
                  a.ms[k].target, a.known(a.ms[k].target), a.Add(db, k))
  {
    var m, src, row := a.ms[k], Old(ROW_KEY, a.cells[k].value), a.RowFor(k);
    assert a.StagedAt(db, k);
    ParentsAreMapped(a, db, k, st);
    RowIs(m, a.cells[k].value, st.idMaps, a.known);
    FreshTarget(a, db, k);
    assert Rows(st.db, m.target) == Rows(db, m.target);
    if Matches(Keys(m, row), st.index) == {} {
      NewTaken(st, k, m, src, row, a.given);
    } else {
      DuplicateTaken(st, k, m, src, row, a.known(m.target), a.given);
    }
  }

  lemma NextMapped(a: Act, db: Database, k: nat, st: State, st': State)
    requires a.Staged(db) && a.Plays(k) && a.MappedUpTo(k, st)
    requires Taken(st, st', a.ms[k].target, a.known(a.ms[k].target), a.Add(db, k))
    ensures a.MappedUpTo(k + 1, st')
  {
    forall j: nat | j < k + 1 && a.Plays(j)
      ensures MapsTo(st'.idMaps, a.ms[j].target, a.known(a.ms[j].target))
    {
      assert j < k ==> a.ms[j].target != a.ms[k].target;
    }
  }

  lemma NextStored(a: Act, db: Database, k: nat, st: State, st': State, id: Id)
    requires a.Staged(db) && a.Plays(k) && a.StoredUpTo(db, k, st) && a.OthersAsBefore(db, k, st)
    requires Taken(st, st', a.ms[k].target, id, a.Add(db, k))
    ensures a.StoredUpTo(db, k + 1, st') && a.OthersAsBefore(db, k + 1, st')
  {
    FreshTarget(a, db, k);
    forall j: nat | j < k + 1 && a.Plays(j)
      ensures Rows(st'.db, a.ms[j].target) == Rows(db, a.ms[j].target) + a.Add(db, j)
    {
      assert j < k ==> a.ms[j].target != a.ms[k].target;
    }
    forall t | !a.PlaysBefore(k + 1, t)
      ensures Rows(st'.db, t) == Rows(db, t)
    {
      assert a.ms[k].target != t;
      assert !a.PlaysBefore(k, t);
    }
  }

  lemma NextPlayed(a: Act, db: Database, k: nat, st: State, st': State)
    requires a.Staged(db) && a.Plays(k) && a.Played(db, k, st)
    requires Taken(st, st', a.ms[k].target, a.known(a.ms[k].target), a.Add(db, k))
    ensures a.Played(db, k + 1, st')
  {
    NextMapped(a, db, k, st, st');
    NextStored(a, db, k, st, st', a.known(a.ms[k].target));
  }

  /** A map without a row changes nothing. */
  lemma NextIdle(a: Act, db: Database, k: nat, st: State)
    requires !a.Plays(k) && a.Played(db, k, st)
    ensures a.Played(db, k + 1, st)
  {
    forall t | !a.PlaysBefore(k + 1, t)
      ensures Rows(st.db, t) == Rows(db, t)
    {
      assert !a.PlaysBefore(k, t);
    }
  }

  /** One map of the plan: it is opened, and its row, if it has one, is taken. */
  ghost function OneMap(a: Act, st: State, k: nat): State
    requires k < |a.ms|
  {
    if a.Plays(k)
    then Step(Open(st, a.ms[k]), k, a.ms[k], Old(ROW_KEY, a.cells[k].value), true, Assigned(a.given))
    else Open(st, a.ms[k])
  }

  lemma PlanStep(a: Act, db: Database, k: nat)
    requires k < |a.ms|
    ensures Before(a.Plan(), db, k + 1) == OneMap(a, Before(a.Plan(), db, k), k)
  {
    var s := a.Plan();
    assert s.jobs[k].m == a.ms[k];
    assert At(s, db, k, 0) == Open(Before(s, db, k), a.ms[k]);
    if a.Plays(k) {
      assert s.jobs[k].rows == [Old(ROW_KEY, a.cells[k].value)];
      assert Before(s, db, k + 1) == At(s, db, k, 1);
    } else {
      assert s.jobs[k].rows == [];
      assert Before(s, db, k + 1) == At(s, db, k, 0);
    }
  }

  lemma PlayedNext(a: Act, db: Database, k: nat, st: State)
    requires a.Staged(db) && k < |a.ms| && a.Played(db, k, st)
    ensures a.Played(db, k + 1, OneMap(a, st, k))
  {
    OpenPlayed(a, db, k, st);
    if a.Plays(k) {
      RowTaken(a, db, k, Open(st, a.ms[k]));
      NextPlayed(a, db, k, Open(st, a.ms[k]), OneMap(a, st, k));
    } else {
      NextIdle(a, db, k, OneMap(a, st, k));
    }
  }

  ghost predicate PlayedBefore(a: Act, db: Database, k: nat) {
    k <= |a.ms| && a.Played(db, k, Before(a.Plan(), db, k))
  }

  ghost function PlayedAt(a: Act, db: Database): nat -> bool {
    (k: nat) => PlayedBefore(a, db, k)
  }

  lemma NonePlayed(a: Act, db: Database)
    ensures PlayedAt(a, db)(0)
  {
    assert a.Played(db, 0, Initial(db));
  }

  lemma PlayedOnward(a: Act, db: Database, k: nat, st: State, st': State)
    requires a.Staged(db) && k < |a.ms| && a.Played(db, k, st) && st' == OneMap(a, st, k)
    ensures a.Played(db, k + 1, st')
  {
    PlayedNext(a, db, k, st);
  }

  lemma PlayedStep(a: Act, db: Database, k: nat)
    requires a.Staged(db) && k < |a.ms| && PlayedBefore(a, db, k)
    ensures PlayedBefore(a, db, k + 1)
  {
    var st, st' := Before(a.Plan(), db, k), Before(a.Plan(), db, k + 1);
    assert st' == OneMap(a, st, k) by {
      PlanStep(a, db, k);
    }
    PlayedOnward(a, db, k, st, st');
  }

  lemma PlayedClimbs(a: Act, db: Database, k: nat)
    requires a.Staged(db) && k < |a.ms|
    ensures Climbs(PlayedAt(a, db), k)
  {
    if PlayedBefore(a, db, k) {
      PlayedStep(a, db, k);
    }
  }

  ghost predicate Climbs(holds: nat -> bool, k: nat) {
    holds(k) ==> holds(k + 1)
  }

  lemma {:induction false} Climbed(holds: nat -> bool, n: nat)
    requires holds(0) && forall k: nat | k < n :: Climbs(holds, k)
    ensures holds(n)
  {
    if n > 0 {
      Climbed(holds, n - 1);
      assert Climbs(holds, n - 1);
    }
  }

  lemma AllClimb(a: Act, db: Database)
    requires a.Staged(db)
    ensures forall k: nat | k < |a.ms| :: Climbs(PlayedAt(a, db), k)
  {
    forall k: nat | k < |a.ms|
      ensures Climbs(PlayedAt(a, db), k)
    {
      PlayedClimbs(a, db, k);
    }
  }

  /**
   * The run of a staged act: every table gains exactly what its row adds, no insert fails, and the log holds an
   * insertion if any row is new.
   */
  lemma ActEnds(a: Act, db: Database)
    requires a.Staged(db)
    ensures a.Played(db, |a.ms|, Final(a.Plan(), db))
  {
    NonePlayed(a, db);
    AllClimb(a, db);
    Climbed(PlayedAt(a, db), |a.ms|);
  }

  lemma OneRowPerTable(a: Act, db: Database)
    requires a.Staged(db)
    ensures DistinctPks(a.Jobs())
  {
  }
}
