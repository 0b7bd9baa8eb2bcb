/** The preview (`execute=False`) beside the real merge: when exactly they report the same outcomes. */
module MergePreview {
  import opened Common
  import opened MergeModel
  import opened MergeBasics
  import opened MergeIdempotence
  import opened MergeIntegrity
  import opened MergeRenaming

  /** The merge of the same jobs, were new rows given the names a preview gives them. */
  ghost function Named(jobs: seq<Job>): Setup {
    Setup(jobs, true, (i: nat, j: nat) =>
      if i < |jobs| && j < |jobs[i].rows| then Assigned(Placeholder(jobs[i].m.target, jobs[i].rows[j].pk))
        else Rejected)
  }

  ghost function Preview(jobs: seq<Job>): Setup {
    Setup(jobs, false, (i, j) => Rejected)
  }

  function AsInserted(e: Entry): Entry {
    if e.outcome.Missing? then e.(outcome := Inserted(e.outcome.id)) else e
  }

  // ---------------------------------------------------------------- when two maps get in each other's way

  /** The preview reports source row `j` of map `i` missing, remapped to `row`. */
  ghost predicate MissingRow(jobs: seq<Job>, db: Database, i: nat, j: nat, row: Row) {
    && i < |jobs| && j < |jobs[i].rows|
    && var p, p' := At(Preview(jobs), db, i, j), At(Preview(jobs), db, i, j + 1);
    && Remapped(jobs[i].m, p.idMaps, jobs[i].rows[j]) == Some(row)
    && |p'.log| == |p.log| + 1 && p'.log[|p.log|].outcome.Missing?
  }

  ghost predicate ReservedBy(jobs: seq<Job>, db: Database, i: nat, j: nat, k: nat, key: Key)
    requires k < |jobs|
  {
    && i < k && jobs[i].m.target == jobs[k].m.target
    && exists row :: MissingRow(jobs, db, i, j, row) && key in Keys(jobs[k].m, row)
  }

  /**
   * A key, as map `k` computes it, of a row that an earlier map of its target reports missing, and of no row
   * of the target.
   */
  ghost predicate Reserved(jobs: seq<Job>, db: Database, k: nat, key: Key)
    requires k < |jobs|
  {
    && key !in IndexOf(jobs[k].m, Rows(db, jobs[k].m.target))
    && exists i: nat, j: nat :: ReservedBy(jobs, db, i, j, k, key)
  }

  /** The preview reports the row missing or duplicate although it has a reserved key. */
  ghost predicate Clashes(jobs: seq<Job>, db: Database, k: nat, n: nat) {
    && k < |jobs| && n < |jobs[k].rows|
    && var p, p' := At(Preview(jobs), db, k, n), At(Preview(jobs), db, k, n + 1);
    && var row := Remapped(jobs[k].m, p.idMaps, jobs[k].rows[n]);
    && row.Some? && (exists key :: key in Keys(jobs[k].m, row.value) && Reserved(jobs, db, k, key))
    && |p'.log| == |p.log| + 1 && (p'.log[|p.log|].outcome.Missing? || p'.log[|p.log|].outcome.Duplicate?)
  }

  /** The positions of the rows that clash. */
  ghost function ClashSet(jobs: seq<Job>, db: Database): iset<(nat, nat)> {
    iset i: nat, j: nat | Clashes(jobs, db, i, j) :: (i, j)
  }

  ghost predicate ConflictBefore(jobs: seq<Job>, db: Database, k: nat, n: nat) {
    Reached(ClashSet(jobs, db), k, n)
  }

  ghost predicate Conflict(jobs: seq<Job>, db: Database) {
    ClashSet(jobs, db) != iset{}
  }

  /** A preview line and a merge line for the same row report different things. */
  predicate KindsDiffer(p: Entry, r: Entry) {
    match p.outcome
    case Missing(_) => !r.outcome.Inserted?
    case Duplicate(_, _) => !r.outcome.Duplicate?
    case Ambiguous => !r.outcome.Ambiguous?
    case NoNaturalKey => !r.outcome.NoNaturalKey?
    case UnresolvedFk => !r.outcome.UnresolvedFk?
    case _ => true
  }

  ghost predicate Differ(p: seq<Entry>, r: seq<Entry>) {
    |p| == |r| && exists x :: 0 <= x < |p| && KindsDiffer(p[x], r[x])
  }

  // ---------------------------------------------------------------- preview beside named merge

  /** Placeholder of some row of map `k`. */
  ghost predicate NamedBy(jobs: seq<Job>, k: nat, id: Id)
    requires k < |jobs|
  {
    exists j :: 0 <= j < |jobs[k].rows| && id == Placeholder(jobs[k].m.target, jobs[k].rows[j].pk)
  }

  ghost predicate OwnValues(jobs: seq<Job>, k: nat, index: Index)
    requires k < |jobs|
  {
    forall key | key in index :: index[key].Stored? || NamedBy(jobs, k, index[key])
  }

  ghost predicate EarlierValue(jobs: seq<Job>, k: nat, id: Id)
    requires k < |jobs|
  {
    exists i :: 0 <= i < k && jobs[i].m.target == jobs[k].m.target && NamedBy(jobs, i, id)
  }

  /** The named merge knows what the preview knows, and the reserved keys besides. */
  ghost predicate IndexBeside(jobs: seq<Job>, db: Database, k: nat, p: Index, q: Index)
    requires k < |jobs|
  {
    && SubIndex(p, q) && OwnValues(jobs, k, p)
    && (forall key | key in q :: key in p || Reserved(jobs, db, k, key))
    && (forall key | Reserved(jobs, db, k, key) :: key !in p && key in q && EarlierValue(jobs, k, q[key]))
  }

  ghost predicate LogBeside(p: seq<Entry>, q: seq<Entry>) {
    |p| == |q| && forall x | 0 <= x < |p| :: q[x] == AsInserted(p[x])
  }

  ghost predicate Beside(jobs: seq<Job>, db: Database, k: nat, p: State, q: State)
    requires k < |jobs|
  {
    p.idMaps == q.idMaps && LogBeside(p.log, q.log) && IndexBeside(jobs, db, k, p.index, q.index)
  }

  ghost predicate Free(jobs: seq<Job>, db: Database, k: nat, keys: set<Key>)
    requires k < |jobs|
  {
    forall key | key in keys :: !Reserved(jobs, db, k, key)
  }

  /** A row none of whose keys is reserved: the two runs do the same. */
  lemma SameMatches(jobs: seq<Job>, db: Database, k: nat, p: Index, q: Index, keys: set<Key>)
    requires k < |jobs| && IndexBeside(jobs, db, k, p, q) && Free(jobs, db, k, keys)
    ensures Matches(keys, p) == Matches(keys, q) && forall key | key in keys :: key in p <==> key in q
  {
  }

  /** The index after a row whose keys are free, in both runs. */
  lemma AddBeside(jobs: seq<Job>, db: Database, k: nat, j: nat, p: Index, q: Index, keys: set<Key>)
    requires k < |jobs| && j < |jobs[k].rows| && IndexBeside(jobs, db, k, p, q) && Free(jobs, db, k, keys)
    ensures var id := Placeholder(jobs[k].m.target, jobs[k].rows[j].pk);
      IndexBeside(jobs, db, k, AddKeys(p, keys, id), AddKeys(q, keys, id))
  {
    var id := Placeholder(jobs[k].m.target, jobs[k].rows[j].pk);
    assert NamedBy(jobs, k, id);
  }

  /** With distinct source keys the name of an earlier row is no value of this map's own index. */
  lemma EarlierIsForeign(jobs: seq<Job>, k: nat, p: Index, key: Key, id: Id)
    requires k < |jobs| && DistinctPks(jobs) && OwnValues(jobs, k, p) && key in p && EarlierValue(jobs, k, id)
    ensures p[key] != id
  {
    var i :| 0 <= i < k && jobs[i].m.target == jobs[k].m.target && NamedBy(jobs, i, id);
    var j :| 0 <= j < |jobs[i].rows| && id == Placeholder(jobs[i].m.target, jobs[i].rows[j].pk);
    if NamedBy(jobs, k, p[key]) {
      var j' :| 0 <= j' < |jobs[k].rows| && p[key] == Placeholder(jobs[k].m.target, jobs[k].rows[j'].pk);
      assert jobs[i].rows[j].pk == jobs[k].rows[j'].pk ==> i == k;
    }
  }

  lemma LineOf(st: State, job: nat, m: TableMap, src: Old, execute: bool, answer: Answer, row: Row)
    requires Remapped(m, st.idMaps, src) == Some(row) && Keys(m, row) != {}
    requires execute ==> answer.Assigned?
    ensures var st' := Step(st, job, m, src, execute, answer);
      && |st'.log| == |st.log| + 1 && st'.log == st.log + [st'.log[|st.log|]]
      && var e := st'.log[|st.log|];
         && e.job == job && e.table == m.target && e.keys == Keys(m, row)
         && ((if execute then e.outcome.Inserted? else e.outcome.Missing?) <==> Matches(Keys(m, row), st.index) == {})
         && (e.outcome.Duplicate? ==> Matches(Keys(m, row), st.index) == {e.outcome.id})
         && (e.outcome.Ambiguous? || e.outcome.Duplicate? || Matches(Keys(m, row), st.index) == {})
  {
    if Matches(Keys(m, row), st.index) == {} {
      assert Step(st, job, m, src, execute, answer) == Admit(st, job, m, src, row, execute, answer);
    } else {
      assert Step(st, job, m, src, execute, answer) == Skipped(st, job, m, src, row);
    }
  }

  /** When the preview's index names one row, the named merge's index names another one besides. */
  lemma ClashMatches(jobs: seq<Job>, db: Database, k: nat, p: Index, q: Index, keys: set<Key>, key: Key)
    requires k < |jobs| && DistinctPks(jobs) && IndexBeside(jobs, db, k, p, q)
    requires key in keys && Reserved(jobs, db, k, key)
    ensures Matches(keys, q) != {}
    ensures forall id | id in Matches(keys, p) :: Matches(keys, q) != {id} && id in Matches(keys, q)
  {
    assert q[key] in Matches(keys, q);
    forall id | id in Matches(keys, p)
      ensures id != q[key] && id in Matches(keys, q)
    {
      MatchesOf(keys, p, id);
      var own :| own in keys && own in p && p[own] == id;
      EarlierIsForeign(jobs, k, p, own, q[key]);
      MatchesGrow(keys, p, q);
    }
  }

  /** A row that clashes: the preview reports missing or duplicate, the named merge something else. */
  lemma ClashDiffers(jobs: seq<Job>, db: Database, k: nat, n: nat, p: State, q: State, row: Row, key: Key)
    requires k < |jobs| && n < |jobs[k].rows| && DistinctPks(jobs) && Beside(jobs, db, k, p, q)
    requires Remapped(jobs[k].m, p.idMaps, jobs[k].rows[n]) == Some(row)
    requires key in Keys(jobs[k].m, row) && Reserved(jobs, db, k, key)
    requires var m, src := jobs[k].m, jobs[k].rows[n];
      var p' := Step(p, k, m, src, false, Rejected);
      |p'.log| == |p.log| + 1 && !p'.log[|p.log|].outcome.Ambiguous?
    ensures var m, src := jobs[k].m, jobs[k].rows[n];
      var p', q' := Step(p, k, m, src, false, Rejected), Step(q, k, m, src, true, Named(jobs).answers(k, n));
      && |p'.log| == |p.log| + 1 && |q'.log| == |q.log| + 1
      && KindsDiffer(p'.log[|p.log|], q'.log[|q.log|])
  {
    var m, src := jobs[k].m, jobs[k].rows[n];
    ClashMatches(jobs, db, k, p.index, q.index, Keys(m, row), key);
    LinesDiffer(p, q, k, m, src, row, Named(jobs).answers(k, n));
  }

  lemma LinesDiffer(p: State, q: State, k: nat, m: TableMap, src: Old, row: Row, answer: Answer)
    requires Remapped(m, p.idMaps, src) == Some(row) && p.idMaps == q.idMaps && Keys(m, row) != {} && answer.Assigned?
    requires Matches(Keys(m, row), q.index) != {}
    requires forall id | id in Matches(Keys(m, row), p.index) ::
      Matches(Keys(m, row), q.index) != {id} && id in Matches(Keys(m, row), q.index)
    requires var p' := Step(p, k, m, src, false, Rejected);
      |p'.log| == |p.log| + 1 && !p'.log[|p.log|].outcome.Ambiguous?
    ensures var p', q' := Step(p, k, m, src, false, Rejected), Step(q, k, m, src, true, answer);
      && |p'.log| == |p.log| + 1 && |q'.log| == |q.log| + 1
      && KindsDiffer(p'.log[|p.log|], q'.log[|q.log|])
  {
    LineOf(p, k, m, src, false, Rejected, row);
    LineOf(q, k, m, src, true, answer, row);
  }

  // ---------------------------------------------------------------- one row of both runs

  lemma BesideRecord(
      jobs: seq<Job>, db: Database, k: nat, p: State, q: State, src: Old, o: Outcome, o': Outcome, keys: set<Key>)
    requires k < |jobs| && Beside(jobs, db, k, p, q)
    requires o' == (if o.Missing? then Inserted(o.id) else o)
    ensures Beside(jobs, db, k, Record(p, k, jobs[k].m, src, o, keys), Record(q, k, jobs[k].m, src, o', keys))
  {
  }

  lemma BesideMapTo(jobs: seq<Job>, db: Database, k: nat, p: State, q: State, src: Old, id: Id)
    requires k < |jobs| && Beside(jobs, db, k, p, q)
    ensures Beside(jobs, db, k, MapTo(p, jobs[k].m, src, id), MapTo(q, jobs[k].m, src, id))
  {
  }

  lemma BesideAdmit(jobs: seq<Job>, db: Database, k: nat, n: nat, p: State, q: State, row: Row)
    requires k < |jobs| && n < |jobs[k].rows| && Beside(jobs, db, k, p, q) && Free(jobs, db, k, Keys(jobs[k].m, row))
    ensures var m, src := jobs[k].m, jobs[k].rows[n];
      Beside(jobs, db, k, Admit(p, k, m, src, row, false, Rejected),
             Admit(q, k, m, src, row, true, Named(jobs).answers(k, n)))
  {
    var m, src := jobs[k].m, jobs[k].rows[n];
    var id, keys := Placeholder(m.target, src.pk), Keys(m, row);
    AddBeside(jobs, db, k, n, p.index, q.index, keys);
    BesideMapTo(jobs, db, k, p, q, src, id);
    var p' := MapTo(p, m, src, id).(index := AddKeys(p.index, keys, id));
    var q' := Grown(q, m, src, row, keys, id);
    assert Beside(jobs, db, k, p', q');
    AdmitIsGrown(q, k, m, src, row, id);
    assert Admit(p, k, m, src, row, false, Rejected) == Record(p', k, m, src, Missing(id), keys);
    BesideRecord(jobs, db, k, p', q', src, Missing(id), Inserted(id), keys);
  }

  lemma BesideOne(jobs: seq<Job>, db: Database, k: nat, p: State, q: State, src: Old, row: Row, id: Id)
    requires k < |jobs| && Beside(jobs, db, k, p, q) && Free(jobs, db, k, Keys(jobs[k].m, row))
    requires Matches(Keys(jobs[k].m, row), p.index) == {id} && Matches(Keys(jobs[k].m, row), q.index) == {id}
    ensures Beside(jobs, db, k, Skipped(p, k, jobs[k].m, src, row), Skipped(q, k, jobs[k].m, src, row))
  {
    var m := jobs[k].m;
    SkippedWithOne(p, k, m, src, row, id);
    SkippedWithOne(q, k, m, src, row, id);
    SameMatches(jobs, db, k, p.index, q.index, Keys(m, row));
    assert NeedsReview(m, row, p.index) == NeedsReview(m, row, q.index);
    BesideMapTo(jobs, db, k, p, q, src, id);
    var o := Duplicate(id, NeedsReview(m, row, p.index));
    BesideRecord(jobs, db, k, MapTo(p, m, src, id), MapTo(q, m, src, id), src, o, o, Keys(m, row));
  }

  lemma BesideMany(jobs: seq<Job>, db: Database, k: nat, p: State, q: State, src: Old, row: Row, id: Id, id': Id)
    requires k < |jobs| && Beside(jobs, db, k, p, q) && id != id' && {id, id'} <= Matches(Keys(jobs[k].m, row), p.index)
    ensures Matches(Keys(jobs[k].m, row), q.index) != {}
    ensures Beside(jobs, db, k, Skipped(p, k, jobs[k].m, src, row), Skipped(q, k, jobs[k].m, src, row))
  {
    var m := jobs[k].m;
    MatchesGrow(Keys(m, row), p.index, q.index);
    SkippedWithMany(p, k, m, src, row, id, id');
    SkippedWithMany(q, k, m, src, row, id, id');
    BesideRecord(jobs, db, k, p, q, src, Ambiguous, Ambiguous, Keys(m, row));
  }

  /** The row is skipped before matching, is ambiguous in the preview, or has no reserved key. */
  ghost predicate Harmless(jobs: seq<Job>, db: Database, k: nat, n: nat, p: State)
    requires k < |jobs| && n < |jobs[k].rows|
  {
    var m := jobs[k].m;
    var row := Remapped(m, p.idMaps, jobs[k].rows[n]);
    row.Some? ==>
      || Free(jobs, db, k, Keys(m, row.value))
      || exists id, id' :: id != id' && {id, id'} <= Matches(Keys(m, row.value), p.index)
  }

  lemma StepBeside(jobs: seq<Job>, db: Database, k: nat, n: nat, p: State, q: State)
    requires k < |jobs| && n < |jobs[k].rows| && Beside(jobs, db, k, p, q) && Harmless(jobs, db, k, n, p)
    ensures var m, src := jobs[k].m, jobs[k].rows[n];
      Beside(jobs, db, k, Step(p, k, m, src, false, Rejected), Step(q, k, m, src, true, Named(jobs).answers(k, n)))
  {
    var m, src := jobs[k].m, jobs[k].rows[n];
    match Remapped(m, p.idMaps, src)
    case None => BesideRecord(jobs, db, k, p, q, src, UnresolvedFk, UnresolvedFk, {});
    case Some(row) =>
      if Keys(m, row) == {} {
        BesideRecord(jobs, db, k, p, q, src, NoNaturalKey, NoNaturalKey, {});
      } else {
        StepKeysBeside(jobs, db, k, n, p, q, row);
      }
  }

  lemma StepKeysBeside(jobs: seq<Job>, db: Database, k: nat, n: nat, p: State, q: State, row: Row)
    requires k < |jobs| && n < |jobs[k].rows| && Beside(jobs, db, k, p, q) && Harmless(jobs, db, k, n, p)
    requires Remapped(jobs[k].m, p.idMaps, jobs[k].rows[n]) == Some(row) && Keys(jobs[k].m, row) != {}
    ensures var m, src := jobs[k].m, jobs[k].rows[n];
      Beside(jobs, db, k, Step(p, k, m, src, false, Rejected), Step(q, k, m, src, true, Named(jobs).answers(k, n)))
  {
    var m, src := jobs[k].m, jobs[k].rows[n];
    var ids := Matches(Keys(m, row), p.index);
    if id, id' :| id != id' && {id, id'} <= ids {
      BesideMany(jobs, db, k, p, q, src, row, id, id');
    } else {
      SameMatches(jobs, db, k, p.index, q.index, Keys(m, row));
      if ids == {} {
        BesideAdmit(jobs, db, k, n, p, q, row);
      } else {
        var id :| id in ids;
        assert ids == {id} by {
          assert forall x | x in ids :: {id, x} <= ids;
        }
        BesideOne(jobs, db, k, p, q, src, row, id);
      }
    }
  }

  /** `st'` is `st` with one more line, about this row of map `job`. */
  ghost predicate AddsLine(st: State, st': State, job: nat, m: TableMap, src: Old, execute: bool, answer: Answer) {
    && |st'.log| == |st.log| + 1 && st'.log == st.log + [st'.log[|st.log|]]
    && var e := st'.log[|st.log|];
       && e.job == job && e.table == m.target && e.pk == src.pk
       && (e.outcome.Inserted? ==> execute && answer == Assigned(e.outcome.id))
       && (e.outcome.InsertFailed? ==> execute && answer == Rejected)
       && (e.outcome.Missing? ==> !execute)
  }

  lemma AdmitLine(st: State, job: nat, m: TableMap, src: Old, row: Row, execute: bool, answer: Answer)
    ensures AddsLine(st, Admit(st, job, m, src, row, execute, answer), job, m, src, execute, answer)
  {
  }

  lemma SkippedLine(st: State, job: nat, m: TableMap, src: Old, row: Row, execute: bool, answer: Answer)
    requires Matches(Keys(m, row), st.index) != {}
    ensures AddsLine(st, Skipped(st, job, m, src, row), job, m, src, execute, answer)
  {
  }

  lemma LastLine(st: State, job: nat, m: TableMap, src: Old, execute: bool, answer: Answer)
    ensures AddsLine(st, Step(st, job, m, src, execute, answer), job, m, src, execute, answer)
  {
    match Remapped(m, st.idMaps, src)
    case None =>
    case Some(row) =>
      if Keys(m, row) == {} {
      } else if Matches(Keys(m, row), st.index) == {} {
        AdmitLine(st, job, m, src, row, execute, answer);
      } else {
        SkippedLine(st, job, m, src, row, execute, answer);
      }
  }

  lemma AmbiguousIsMany(st: State, job: nat, m: TableMap, src: Old, row: Row)
    requires Remapped(m, st.idMaps, src) == Some(row) && Keys(m, row) != {}
    requires Step(st, job, m, src, false, Rejected).log[|st.log|].outcome.Ambiguous?
    ensures exists id, id' :: id != id' && {id, id'} <= Matches(Keys(m, row), st.index)
  {
    var ids := Matches(Keys(m, row), st.index);
    assert ids != {};
    var id :| id in ids;
    OneIsDuplicate(st, job, m, src, row, id);
    assert ids - {id} != {};
    var id' :| id' in ids - {id};
    assert {id, id'} <= ids;
  }

  lemma OneIsDuplicate(st: State, job: nat, m: TableMap, src: Old, row: Row, id: Id)
    requires Matches(Keys(m, row), st.index) != {}
    ensures Matches(Keys(m, row), st.index) == {id} ==> Skipped(st, job, m, src, row).log[|st.log|].outcome.Duplicate?
  {
    if Matches(Keys(m, row), st.index) == {id} {
      SkippedWithOne(st, job, m, src, row, id);
    }
  }

  // ---------------------------------------------------------------- start of a map

  ghost predicate StoredIds(db: Database) {
    forall t, r | r in Rows(db, t) :: r.id.Stored?
  }

  /** Side by side and no clash so far, or a clash and a line that differs. */
  ghost predicate Progress(jobs: seq<Job>, db: Database, k: nat, n: nat)
    requires k < |jobs| && n <= |jobs[k].rows|
  {
    var p, q := At(Preview(jobs), db, k, n), At(Named(jobs), db, k, n);
    if ConflictBefore(jobs, db, k, n) then Differ(p.log, q.log) else Beside(jobs, db, k, p, q)
  }

  ghost function EarlierRows(jobs: seq<Job>, k: nat): iset<(nat, nat)> {
    iset i: nat, j: nat | i < k && RowAt(jobs, i, j) :: (i, j)
  }

  ghost function AlikeRows(jobs: seq<Job>, db: Database): iset<(nat, nat)> {
    iset i: nat, j: nat | RowAt(jobs, i, j) && AlikeRow(jobs, db, i, j) :: (i, j)
  }

  /** Every row of the maps before `k` went alike in both runs. */
  ghost predicate AlikeBefore(jobs: seq<Job>, db: Database, k: nat) {
    EarlierRows(jobs, k) <= AlikeRows(jobs, db)
  }

  ghost predicate AlikeRow(jobs: seq<Job>, db: Database, i: nat, j: nat)
    requires RowAt(jobs, i, j)
  {
    && At(Preview(jobs), db, i, j).idMaps == At(Named(jobs), db, i, j).idMaps
    && LogBeside(At(Preview(jobs), db, i, j).log, At(Named(jobs), db, i, j).log)
    && LogBeside(At(Preview(jobs), db, i, j + 1).log, At(Named(jobs), db, i, j + 1).log)
  }

  /** The named merge adds exactly the rows the preview reports missing. */
  lemma AlikeAdds(jobs: seq<Job>, db: Database, i: nat, j: nat)
    requires i < |jobs| && j < |jobs[i].rows| && AlikeRow(jobs, db, i, j)
    ensures var t := jobs[i].m.target;
      var q, q' := At(Named(jobs), db, i, j), At(Named(jobs), db, i, j + 1);
      var id := Placeholder(t, jobs[i].rows[j].pk);
      && (forall u | u != t :: Rows(q'.db, u) == Rows(q.db, u))
      && (Rows(q'.db, t) == Rows(q.db, t) || exists row ::
           MissingRow(jobs, db, i, j, row) && Rows(q'.db, t) == Rows(q.db, t) + [Rec(id, row)])
      && (forall row | MissingRow(jobs, db, i, j, row) :: Rows(q'.db, t) == Rows(q.db, t) + [Rec(id, row)])
  {
    var p, p' := At(Preview(jobs), db, i, j), At(Preview(jobs), db, i, j + 1);
    var q, q' := At(Named(jobs), db, i, j), At(Named(jobs), db, i, j + 1);
    var m, src := jobs[i].m, jobs[i].rows[j];
    LastLine(p, i, m, src, false, Rejected);
    InsertStep(q, i, m, src, Named(jobs).answers(i, j));
    assert q'.log[|q.log|] == AsInserted(p'.log[|p.log|]);
    if q'.log[|q.log|].outcome.Inserted? {
      assert MissingRow(jobs, db, i, j, Remapped(m, q.idMaps, src).value);
    }
  }

  ghost predicate AddedMissing(jobs: seq<Job>, db: Database, k: nat, i: nat, j: nat, r: Rec)
    requires k < |jobs|
  {
    && i < k && j < |jobs[i].rows| && jobs[i].m.target == jobs[k].m.target
    && r.id == Placeholder(jobs[i].m.target, jobs[i].rows[j].pk) && MissingRow(jobs, db, i, j, r.row)
  }

  /** The rows a map starts with are those of the database, and what earlier rows left stays in place. */
  lemma RowsBefore(s: Setup, db: Database, k: nat, t: string)
    requires k < |s.jobs|
    ensures Rows(db, t) <= Rows(Before(s, db, k).db, t) && (k == 0 ==> Rows(Before(s, db, k).db, t) == Rows(db, t))
  {
    if k > 0 {
      OpenIsBefore(s, db, 0);
      DbGrows(s, db, 0, 0, k - 1, |s.jobs[k - 1].rows|, t);
    }
  }

  lemma RowsOfEarlier(s: Setup, db: Database, i: nat, j: nat, k: nat, t: string)
    requires i < k < |s.jobs| && j < |s.jobs[i].rows|
    ensures Rows(At(s, db, i, j + 1).db, t) <= Rows(Before(s, db, k).db, t)
  {
    DbGrows(s, db, i, j + 1, k - 1, |s.jobs[k - 1].rows|, t);
  }

  lemma AddedBefore(s: Setup, db: Database, k: nat, t: string, x: nat) returns (i: nat, j: nat)
    requires k < |s.jobs| && s.execute && |Rows(db, t)| <= x < |Rows(Before(s, db, k).db, t)|
    ensures i < k && AddsRow(s, db, t, x, i, j)
  {
    RowsBefore(s, db, k, t);
    i, j := AddedWhere(s, db, k - 1, |s.jobs[k - 1].rows|, t, x);
  }

  /** A row the named merge has when map `k` starts is in the target, or an earlier map reports it missing. */
  lemma NamedRowIsKnown(jobs: seq<Job>, db: Database, k: nat, x: nat)
    requires k < |jobs| && AlikeBefore(jobs, db, k)
    requires x < |Rows(Before(Named(jobs), db, k).db, jobs[k].m.target)|
    ensures var t := jobs[k].m.target;
      var r := Rows(Before(Named(jobs), db, k).db, t)[x];
      || (x < |Rows(db, t)| && Rows(db, t)[x] == r)
      || exists i: nat, j: nat :: AddedMissing(jobs, db, k, i, j, r)
  {
    var s, t := Named(jobs), jobs[k].m.target;
    RowsBefore(s, db, k, t);
    if x >= |Rows(db, t)| {
      var i, j := AddedBefore(s, db, k, t, x);
      AddedIsMissing(jobs, db, k, i, j, x);
      RowsOfEarlier(s, db, i, j, k, t);
    }
  }

  lemma AddedIsMissing(jobs: seq<Job>, db: Database, k: nat, i: nat, j: nat, x: nat)
    requires i < k < |jobs| && AlikeBefore(jobs, db, k) && AddsRow(Named(jobs), db, jobs[k].m.target, x, i, j)
    ensures AddedMissing(jobs, db, k, i, j, Rows(At(Named(jobs), db, i, j + 1).db, jobs[k].m.target)[x])
  {
    assert (i, j) in EarlierRows(jobs, k) && (i, j) in AlikeRows(jobs, db);
    AlikeAdds(jobs, db, i, j);
  }

  /** What an earlier map reports missing the named merge has when map `k` starts. */
  lemma MissingIsNamed(jobs: seq<Job>, db: Database, k: nat, i: nat, j: nat, row: Row)
    requires k < |jobs| && AlikeBefore(jobs, db, k) && i < k && jobs[i].m.target == jobs[k].m.target
    requires MissingRow(jobs, db, i, j, row)
    ensures Rec(Placeholder(jobs[i].m.target, jobs[i].rows[j].pk), row)
         in Rows(Before(Named(jobs), db, k).db, jobs[k].m.target)
  {
    var s, t := Named(jobs), jobs[k].m.target;
    assert (i, j) in EarlierRows(jobs, k) && (i, j) in AlikeRows(jobs, db);
    AlikeAdds(jobs, db, i, j);
    RowsOfEarlier(s, db, i, j, k, t);
    LastIsIn(Rows(At(s, db, i, j).db, t), Rec(Placeholder(t, jobs[i].rows[j].pk), row), Rows(Before(s, db, k).db, t));
  }

  lemma LastIsIn(rows: seq<Rec>, r: Rec, all: seq<Rec>)
    requires rows + [r] <= all
    ensures r in all
  {
    assert all[|rows|] == r;
  }

  /** The two indexes when a map starts. */
  lemma OpenIndexes(jobs: seq<Job>, db: Database, k: nat)
    requires k < |jobs| && StoredIds(db) && AlikeBefore(jobs, db, k)
    ensures var m := jobs[k].m;
      IndexBeside(jobs, db, k, IndexOf(m, Rows(db, m.target)),
        IndexOf(m, Rows(Before(Named(jobs), db, k).db, m.target)))
  {
    var m := jobs[k].m;
    var base, rows := Rows(db, m.target), Rows(Before(Named(jobs), db, k).db, m.target);
    RowsBefore(Named(jobs), db, k, m.target);
    PrefixIndex(m, base, rows);
    BaseValues(jobs, db, k);
    forall key | key in IndexOf(m, rows) && key !in IndexOf(m, base)
      ensures Reserved(jobs, db, k, key) && EarlierValue(jobs, k, IndexOf(m, rows)[key])
    {
      NewKey(jobs, db, k, key);
    }
    forall key | Reserved(jobs, db, k, key)
      ensures key in IndexOf(m, rows)
    {
      ReservedKey(jobs, db, k, key);
    }
  }

  lemma BaseValues(jobs: seq<Job>, db: Database, k: nat)
    requires k < |jobs| && StoredIds(db)
    ensures OwnValues(jobs, k, IndexOf(jobs[k].m, Rows(db, jobs[k].m.target)))
  {
    var m, base := jobs[k].m, Rows(db, jobs[k].m.target);
    IndexIsExact(m, base);
    forall key | key in IndexOf(m, base)
      ensures IndexOf(m, base)[key].Stored?
    {
      assert Holds(m, base, key, IndexOf(m, base)[key]);
    }
  }

  lemma NewKey(jobs: seq<Job>, db: Database, k: nat, key: Key)
    requires k < |jobs| && AlikeBefore(jobs, db, k)
    requires var m := jobs[k].m;
      key in IndexOf(m, Rows(Before(Named(jobs), db, k).db, m.target)) && key !in IndexOf(m, Rows(db, m.target))
    ensures var m := jobs[k].m;
      Reserved(jobs, db, k, key) && EarlierValue(jobs, k,
        IndexOf(m, Rows(Before(Named(jobs), db, k).db, m.target))[key])
  {
    var m := jobs[k].m;
    var base, rows := Rows(db, m.target), Rows(Before(Named(jobs), db, k).db, m.target);
    IndexIsExact(m, base);
    IndexIsExact(m, rows);
    assert Holds(m, rows, key, IndexOf(m, rows)[key]);
    var r :| r in rows && key in Keys(m, r.row) && r.id == IndexOf(m, rows)[key];
    var x :| 0 <= x < |rows| && rows[x] == r;
    NamedRowIsKnown(jobs, db, k, x);
    assert x < |base| && base[x] == r ==> r in base;
    var i: nat, j: nat :| AddedMissing(jobs, db, k, i, j, r);
    assert ReservedBy(jobs, db, i, j, k, key);
    assert NamedBy(jobs, i, r.id);
  }

  lemma ReservedKey(jobs: seq<Job>, db: Database, k: nat, key: Key)
    requires k < |jobs| && AlikeBefore(jobs, db, k) && Reserved(jobs, db, k, key)
    ensures var m := jobs[k].m; key in IndexOf(m, Rows(Before(Named(jobs), db, k).db, m.target))
  {
    var m := jobs[k].m;
    var rows := Rows(Before(Named(jobs), db, k).db, m.target);
    var i: nat, j: nat :| ReservedBy(jobs, db, i, j, k, key);
    var row :| MissingRow(jobs, db, i, j, row) && key in Keys(m, row);
    MissingIsNamed(jobs, db, k, i, j, row);
    IndexIsExact(m, rows);
  }

  lemma OpenBeside(jobs: seq<Job>, db: Database, k: nat)
    requires k < |jobs| && StoredIds(db) && AlikeBefore(jobs, db, k)
    requires ProgressBefore(jobs, db, k) && !ConflictBefore(jobs, db, k, 0)
    ensures Progress(jobs, db, k, 0)
  {
    OpenIndexes(jobs, db, k);
    if k > 0 {
      PreviewKeepsDb(Preview(jobs), db, k - 1, |jobs[k - 1].rows|);
    }
  }

  // ---------------------------------------------------------------- whole runs

  lemma DifferLater(p: seq<Entry>, q: seq<Entry>, e: Entry, f: Entry)
    requires Differ(p, q)
    ensures Differ(p + [e], q + [f])
  {
    var x :| 0 <= x < |p| && KindsDiffer(p[x], q[x]);
    assert KindsDiffer((p + [e])[x], (q + [f])[x]);
  }

  lemma StepProgress(jobs: seq<Job>, db: Database, k: nat, n: nat)
    requires k < |jobs| && n < |jobs[k].rows| && DistinctPks(jobs) && Progress(jobs, db, k, n)
    ensures Progress(jobs, db, k, n + 1)
  {
    var p, q := At(Preview(jobs), db, k, n), At(Named(jobs), db, k, n);
    var p', q' := At(Preview(jobs), db, k, n + 1), At(Named(jobs), db, k, n + 1);
    var m, src := jobs[k].m, jobs[k].rows[n];
    ReachedNext(ClashSet(jobs, db), k, n);
    LastLine(p, k, m, src, false, Rejected);
    LastLine(q, k, m, src, true, Named(jobs).answers(k, n));
    if ConflictBefore(jobs, db, k, n) {
      DifferLater(p.log, q.log, p'.log[|p.log|], q'.log[|q.log|]);
    } else {
      FreshProgress(jobs, db, k, n);
    }
  }

  lemma FreshProgress(jobs: seq<Job>, db: Database, k: nat, n: nat)
    requires k < |jobs| && n < |jobs[k].rows| && DistinctPks(jobs)
    requires Beside(jobs, db, k, At(Preview(jobs), db, k, n), At(Named(jobs), db, k, n))
    ensures var p', q' := At(Preview(jobs), db, k, n + 1), At(Named(jobs), db, k, n + 1);
      if Clashes(jobs, db, k, n) then Differ(p'.log, q'.log) else Beside(jobs, db, k, p', q')
  {
    var p, q := At(Preview(jobs), db, k, n), At(Named(jobs), db, k, n);
    var m, src := jobs[k].m, jobs[k].rows[n];
    var row := Remapped(m, p.idMaps, src);
    LastLine(p, k, m, src, false, Rejected);
    LastLine(q, k, m, src, true, Named(jobs).answers(k, n));
    if Clashes(jobs, db, k, n) {
      var key :| key in Keys(m, row.value) && Reserved(jobs, db, k, key);
      ClashDiffers(jobs, db, k, n, p, q, row.value, key);
      var x := |p.log|;
      assert KindsDiffer(At(Preview(jobs), db, k, n + 1).log[x], At(Named(jobs), db, k, n + 1).log[x]);
    } else {
      NoClashIsHarmless(jobs, db, k, n);
      StepBeside(jobs, db, k, n, p, q);
    }
  }

  lemma NoClashIsHarmless(jobs: seq<Job>, db: Database, k: nat, n: nat)
    requires k < |jobs| && n < |jobs[k].rows| && !Clashes(jobs, db, k, n)
    ensures Harmless(jobs, db, k, n, At(Preview(jobs), db, k, n))
  {
    var p := At(Preview(jobs), db, k, n);
    var m, src := jobs[k].m, jobs[k].rows[n];
    var row := Remapped(m, p.idMaps, src);
    if row.Some? && Keys(m, row.value) != {} {
      LineOf(p, k, m, src, false, Rejected, row.value);
      if Step(p, k, m, src, false, Rejected).log[|p.log|].outcome.Ambiguous? {
        AmbiguousIsMany(p, k, m, src, row.value);
      }
    }
  }

  /** A row before a moment without a conflict went alike. */
  lemma AlikeFromProgress(jobs: seq<Job>, db: Database, k: nat, i: nat, j: nat)
    requires i < k < |jobs| && j < |jobs[i].rows| && !ConflictBefore(jobs, db, k, 0)
    requires Progress(jobs, db, i, j) && Progress(jobs, db, i, j + 1)
    ensures (i, j) in AlikeRows(jobs, db)
  {
    if ConflictBefore(jobs, db, i, j) {
      ReachedLater(ClashSet(jobs, db), i, j, k);
    }
    if ConflictBefore(jobs, db, i, j + 1) {
      ReachedLater(ClashSet(jobs, db), i, j + 1, k);
    }
  }

  lemma {:induction false} AlikeSoFar(jobs: seq<Job>, db: Database, k: nat)
    requires k < |jobs| && DistinctPks(jobs) && StoredIds(db) && !ConflictBefore(jobs, db, k, 0)
    ensures AlikeBefore(jobs, db, k)
    decreases k, 0, 0
  {
    forall c | c in EarlierRows(jobs, k)
      ensures c in AlikeRows(jobs, db)
    {
      AlikeOne(jobs, db, k, c.0, c.1);
    }
  }

  lemma {:induction false} AlikeOne(jobs: seq<Job>, db: Database, k: nat, i: nat, j: nat)
    requires i < k < |jobs| && j < |jobs[i].rows| && !ConflictBefore(jobs, db, k, 0)
    requires DistinctPks(jobs) && StoredIds(db)
    ensures (i, j) in AlikeRows(jobs, db)
    decreases i, 2, j
  {
    ProgressSoFar(jobs, db, i, j);
    ProgressSoFar(jobs, db, i, j + 1);
    AlikeFromProgress(jobs, db, k, i, j);
  }

  lemma {:induction false} ProgressSoFar(jobs: seq<Job>, db: Database, k: nat, n: nat)
    requires k < |jobs| && n <= |jobs[k].rows| && DistinctPks(jobs) && StoredIds(db)
    ensures Progress(jobs, db, k, n)
    decreases k, 1, n
  {
    if n == 0 {
      if k == 0 {
        ProgressAtStart(jobs, db);
      } else {
        ProgressSoFar(jobs, db, k - 1, |jobs[k - 1].rows|);
        ProgressAtOpen(jobs, db, k);
      }
      if ConflictBefore(jobs, db, k, 0) {
        OpenDiffers(jobs, db, k);
      } else {
        AlikeSoFar(jobs, db, k);
        OpenBeside(jobs, db, k);
      }
    } else {
      ProgressSoFar(jobs, db, k, n - 1);
      StepProgress(jobs, db, k, n - 1);
    }
  }

  /** As Progress, when map `k` is about to start. */
  ghost predicate ProgressBefore(jobs: seq<Job>, db: Database, k: nat)
    requires k < |jobs|
  {
    var p, q := Before(Preview(jobs), db, k), Before(Named(jobs), db, k);
    if ConflictBefore(jobs, db, k, 0) then Differ(p.log, q.log) else p.idMaps == q.idMaps && LogBeside(p.log, q.log)
  }

  lemma ProgressAtStart(jobs: seq<Job>, db: Database)
    requires jobs != []
    ensures ProgressBefore(jobs, db, 0)
  {
    assert !Reached(ClashSet(jobs, db), 0, 0);
  }

  lemma ProgressAtOpen(jobs: seq<Job>, db: Database, k: nat)
    requires 0 < k < |jobs| && Progress(jobs, db, k - 1, |jobs[k - 1].rows|)
    ensures ProgressBefore(jobs, db, k)
  {
    ReachedAtOpen(ClashSet(jobs, db), jobs, k);
    if ConflictBefore(jobs, db, k, 0) {
    } else {
      assert !ConflictBefore(jobs, db, k - 1, |jobs[k - 1].rows|);
    }
  }

  lemma OpenDiffers(jobs: seq<Job>, db: Database, k: nat)
    requires k < |jobs| && ProgressBefore(jobs, db, k) && ConflictBefore(jobs, db, k, 0)
    ensures Progress(jobs, db, k, 0)
  {
    OpenIsBefore(Preview(jobs), db, k);
    OpenIsBefore(Named(jobs), db, k);
  }

  // ---------------------------------------------------------------- the ids a real merge assigns

  /** The placeholder `id` names row `j` of map `i`. */
  ghost predicate NamesRow(s: Setup, id: Id, i: int, j: int) {
    RowAt(s.jobs, i, j) && id == Placeholder(s.jobs[i].m.target, s.jobs[i].rows[j].pk)
  }

  function AssignedIds(s: Setup): set<Id> {
    set i, j | 0 <= i < |s.jobs| && 0 <= j < |s.jobs[i].rows| && s.answers(i, j).Assigned? :: s.answers(i, j).id
  }

  /** No insert fails and every new primary key is new: to the other new ones and to the database. */
  ghost predicate FreshAnswers(s: Setup, db: Database) {
    && (forall i, j | RowAt(s.jobs, i, j) :: s.answers(i, j).Assigned? && s.answers(i, j).id.Stored?)
    && (forall i, j, i', j' | RowAt(s.jobs, i, j) && RowAt(s.jobs, i', j') && s.answers(i, j) == s.answers(i', j') ::
         i == i' && j == j')
    && (forall t, r | r in Rows(db, t) :: OldId(s, r.id) && forall c | c in r.row && r.row[c].Ref? ::
         OldId(s, r.row[c].id))
  }

  ghost predicate OldId(s: Setup, id: Id) {
    id.Stored? && id !in AssignedIds(s)
  }

  /** The id the merge gives to the row a placeholder names; other ids stay. */
  ghost function RealId(s: Setup, id: Id): Id {
    if i, j :| NamesRow(s, id, i, j) && s.answers(i, j).Assigned? then s.answers(i, j).id else id
  }

  ghost function Reality(s: Setup): Renaming {
    Renaming(id => RealId(s, id), AssignedIds(s))
  }

  lemma RealIdOfRow(s: Setup, db: Database, i: nat, j: nat)
    requires FreshAnswers(s, db) && DistinctPks(s.jobs) && RowAt(s.jobs, i, j)
    ensures RealId(s, Placeholder(s.jobs[i].m.target, s.jobs[i].rows[j].pk)) == s.answers(i, j).id
  {
    var id := Placeholder(s.jobs[i].m.target, s.jobs[i].rows[j].pk);
    assert NamesRow(s, id, i, j);
    forall i', j' | NamesRow(s, id, i', j')
      ensures i' == i && j' == j
    {
      assert s.jobs[i'].rows[j'].pk == s.jobs[i].rows[j].pk;
    }
  }

  /** Either an id stays, or it names a row and becomes that row's assigned id. */
  lemma RealIdCases(s: Setup, id: Id) returns (named: bool, i: int, j: int)
    ensures !named ==> RealId(s, id) == id
    ensures named ==>
      NamesRow(s, id, i, j) && s.answers(i, j) == Assigned(RealId(s, id)) && RealId(s, id) in AssignedIds(s)
  {
    named, i, j := false, 0, 0;
    if i', j' :| NamesRow(s, id, i', j') && s.answers(i', j').Assigned? && s.answers(i', j').id == RealId(s, id) {
      assert RowAt(s.jobs, i', j');
      named, i, j := true, i', j';
    }
  }

  lemma RealityIsSensible(s: Setup, db: Database)
    requires FreshAnswers(s, db) && DistinctPks(s.jobs)
    ensures Sensible(Reality(s))
  {
    var ren := Reality(s);
    forall a, b | a !in ren.taken && b !in ren.taken && ren.image(a) == ren.image(b)
      ensures a == b
    {
      var named, i, j := RealIdCases(s, a);
      var named', i', j' := RealIdCases(s, b);
    }
  }

  lemma OldIdsStay(s: Setup, db: Database)
    requires FreshAnswers(s, db)
    ensures DbImage(Reality(s), db, db) && StoredIds(db)
  {
    var ren := Reality(s);
    forall t, r | r in Rows(db, t)
      ensures RecImage(ren, r, r)
    {
      assert forall c | c in r.row && r.row[c].Ref? :: OldId(s, r.row[c].id);
      assert ImgRow(ren, r.row) == r.row;
    }
  }

  lemma NamedBecomesReal(s: Setup, db: Database)
    requires s.execute && FreshAnswers(s, db) && DistinctPks(s.jobs)
    ensures SameMergeRenamed(Reality(s), Named(s.jobs), s)
  {
    forall i, j | 0 <= i < |s.jobs| && 0 <= j < |s.jobs[i].rows|
      ensures Named(s.jobs).answers(i, j).id !in Reality(s).taken
      ensures s.answers(i, j) == Assigned(RealId(s, Named(s.jobs).answers(i, j).id))
    {
      RealIdOfRow(s, db, i, j);
      assert RowAt(s.jobs, i, j);
    }
  }

  /** The preview reports what the merge does, up to the names of new rows. */
  ghost predicate Agree(s: Setup, p: State, r: State) {
    && |p.log| == |r.log|
    && (forall x | 0 <= x < |p.log| :: r.log[x] == ImgEntry(Reality(s), AsInserted(p.log[x])))
    && MapsImage(Reality(s), p.idMaps, r.idMaps)
  }

  lemma RealityKeepsKinds(s: Setup, p: seq<Entry>, q: seq<Entry>, r: seq<Entry>)
    requires Differ(p, q) && LogImage(Reality(s), q, r)
    ensures Differ(p, r)
  {
    var x :| 0 <= x < |p| && KindsDiffer(p[x], q[x]);
    assert KindsDiffer(p[x], r[x]);
  }

  /**
   * The preview agrees with the merge, line by line and id by id, exactly when none of its own lines
   * clashes with a row an earlier map of the same target reports missing. When one does, some line
   * reports another kind of outcome. Maps of one target may compare rows by different schemes.
   */
  lemma PreviewIsExact(s: Setup, db: Database)
    requires s.execute && DistinctPks(s.jobs) && FreshAnswers(s, db)
    ensures var p, r := Final(Preview(s.jobs), db), Final(s, db);
      && (!Conflict(s.jobs, db) ==> Agree(s, p, r))
      && (Conflict(s.jobs, db) ==> Differ(p.log, r.log))
  {
    if s.jobs == [] {
      CompareNothing(s, db);
    } else {
      CompareFinal(s, db);
      ReachedAtEnd(ClashSet(s.jobs, db), s.jobs);
    }
  }

  lemma CompareNothing(s: Setup, db: Database)
    requires s.jobs == []
    ensures Agree(s, Final(Preview(s.jobs), db), Final(s, db)) && !Conflict(s.jobs, db)
  {
  }

  lemma CompareFinal(s: Setup, db: Database)
    requires s.execute && DistinctPks(s.jobs) && FreshAnswers(s, db) && s.jobs != []
    ensures var p, r := Final(Preview(s.jobs), db), Final(s, db);
      if ConflictBefore(s.jobs, db, |s.jobs| - 1, |s.jobs[|s.jobs| - 1].rows|) then Differ(p.log, r.log)
      else Agree(s, p, r)
  {
    CompareAt(s, db, |s.jobs| - 1, |s.jobs[|s.jobs| - 1].rows|);
    FinalIsLast(s, db);
    FinalIsLast(Preview(s.jobs), db);
  }

  /** At any moment: no clash so far and agreement, or a clash and a line that differs. */
  lemma CompareAt(s: Setup, db: Database, k: nat, n: nat)
    requires s.execute && DistinctPks(s.jobs) && FreshAnswers(s, db) && Position(s, k, n)
    ensures var p, r := At(Preview(s.jobs), db, k, n), At(s, db, k, n);
      if ConflictBefore(s.jobs, db, k, n) then Differ(p.log, r.log) else Agree(s, p, r)
  {
    OldIdsStay(s, db);
    ProgressSoFar(s.jobs, db, k, n);
    NamedRunIsReal(s, db, k, n);
    CompareThree(s, At(Preview(s.jobs), db, k, n), At(Named(s.jobs), db, k, n), At(s, db, k, n),
                 ConflictBefore(s.jobs, db, k, n));
  }

  lemma NamedRunIsReal(s: Setup, db: Database, k: nat, n: nat)
    requires s.execute && DistinctPks(s.jobs) && FreshAnswers(s, db) && Position(s, k, n)
    ensures StateImage(Reality(s), At(Named(s.jobs), db, k, n), At(s, db, k, n))
  {
    RealityIsSensible(s, db);
    OldIdsStay(s, db);
    NamedBecomesReal(s, db);
    RenamedRun(Reality(s), Named(s.jobs), s, db, k, n);
  }

  lemma CompareThree(s: Setup, p: State, q: State, r: State, conflict: bool)
    requires StateImage(Reality(s), q, r)
    requires if conflict then Differ(p.log, q.log) else p.idMaps == q.idMaps && LogBeside(p.log, q.log)
    ensures if conflict then Differ(p.log, r.log) else Agree(s, p, r)
  {
    if conflict {
      RealityKeepsKinds(s, p.log, q.log, r.log);
    }
  }

  /** With pairwise distinct targets the preview always agrees with the merge. */
  lemma PreviewOfDistinctTargets(s: Setup, db: Database)
    requires s.execute && DistinctPks(s.jobs) && FreshAnswers(s, db)
    requires forall i, k | 0 <= i < k < |s.jobs| :: s.jobs[i].m.target != s.jobs[k].m.target
    ensures Agree(s, Final(Preview(s.jobs), db), Final(s, db))
  {
    PreviewIsExact(s, db);
  }
}
