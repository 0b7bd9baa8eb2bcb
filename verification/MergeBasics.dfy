/** Facts about keys, indexes and foreign keys that the theorems about whole runs share. */
module MergeBasics {
  import opened Common
  import opened MergeModel

  function AsText(v: Value): Option<string> {
    if v.Text? then Some(v.text) else None
  }

  ghost predicate SubIndex(a: Index, b: Index) {
    forall k | k in a :: k in b && b[k] == a[k]
  }

  /** Every entry of the index belongs to a row of the table. */
  ghost predicate Sound(m: TableMap, rows: seq<Rec>, index: Index) {
    forall k | k in index :: Holds(m, rows, k, index[k])
  }

  ghost predicate Holds(m: TableMap, rows: seq<Rec>, k: Key, id: Id) {
    exists r | r in rows :: k in Keys(m, r.row) && r.id == id
  }

  /** Every usable key of the table is in the index. */
  ghost predicate Complete(m: TableMap, rows: seq<Rec>, index: Index) {
    forall r, k | r in rows && k in Keys(m, r.row) :: k in index
  }

  lemma KeysOfScheme(m: TableMap, m': TableMap, row: Row)
    requires SameScheme(m, m')
    ensures Keys(m, row) == Keys(m', row)
  {
    forall i | 0 <= i < |m.naturalKeys|
      ensures KeyAt(m, row, i) == KeyAt(m', row, i)
    {
      assert Parts(m, m.naturalKeys[i], row) == Parts(m', m.naturalKeys[i], row);
    }
    assert forall i | 0 <= i < |m.naturalKeys| :: KeyAt(m, row, i) == KeyAt(m', row, i);
  }

  /** Loading twice under one scheme gives one index. */
  lemma {:induction false} IndexOfScheme(m: TableMap, m': TableMap, rows: seq<Rec>)
    requires SameScheme(m, m')
    ensures IndexOf(m, rows) == IndexOf(m', rows)
  {
    if rows != [] {
      IndexOfScheme(m, m', rows[..|rows| - 1]);
      KeysOfScheme(m, m', rows[|rows| - 1].row);
    }
  }

  /** The loaded index holds exactly the usable keys of the table, each with a row that has it. */
  lemma {:induction false} IndexIsExact(m: TableMap, rows: seq<Rec>)
    ensures Sound(m, rows, IndexOf(m, rows)) && Complete(m, rows, IndexOf(m, rows))
  {
    if rows != [] {
      var init, last := rows[..|rows| - 1], rows[|rows| - 1];
      IndexIsExact(m, init);
      assert rows == init + [last];
      forall k | k in IndexOf(m, rows)
        ensures Holds(m, rows, k, IndexOf(m, rows)[k])
      {
        if k in IndexOf(m, init) {
          var r :| r in init && k in Keys(m, r.row) && r.id == IndexOf(m, init)[k];
          assert r in rows;
        } else {
          assert last in rows && k in Keys(m, last.row);
        }
      }
    }
  }

  /** With unique keys the order in which the rows are read does not matter. */
  lemma UniqueIndex(m: TableMap, rows: seq<Rec>, r: Rec, k: Key)
    requires UniqueKeys(m, rows) && r in rows && k in Keys(m, r.row)
    ensures k in IndexOf(m, rows) && IndexOf(m, rows)[k] == r.id
  {
    IndexIsExact(m, rows);
    assert Holds(m, rows, k, IndexOf(m, rows)[k]);
    var q :| q in rows && k in Keys(m, q.row) && q.id == IndexOf(m, rows)[k];
    assert k in Keys(m, q.row) * Keys(m, r.row);
  }

  /** Inserting a row extends the index as loading the longer table would. */
  lemma IndexAfterInsert(m: TableMap, rows: seq<Rec>, r: Rec)
    ensures IndexOf(m, rows + [r]) == AddKeys(IndexOf(m, rows), Keys(m, r.row), r.id)
  {
    assert (rows + [r])[..|rows|] == rows;
  }

  /** A longer table keeps every entry of the index. */
  lemma {:induction false} IndexGrows(m: TableMap, rows: seq<Rec>, more: seq<Rec>)
    ensures SubIndex(IndexOf(m, rows), IndexOf(m, rows + more))
  {
    if more == [] {
      assert rows + more == rows;
    } else {
      var init, last := more[..|more| - 1], more[|more| - 1];
      IndexGrows(m, rows, init);
      assert rows + more == (rows + init) + [last];
      IndexAfterInsert(m, rows + init, last);
    }
  }

  lemma MatchesOf(keys: set<Key>, index: Index, id: Id)
    ensures id in Matches(keys, index) <==> exists k :: k in keys && k in index && index[k] == id
  {
  }

  lemma MatchesGrow(keys: set<Key>, a: Index, b: Index)
    requires SubIndex(a, b)
    ensures Matches(keys, a) <= Matches(keys, b)
  {
  }

  // ---------------------------------------------------------------- the state of a run

  ghost predicate Position(s: Setup, k: nat, n: nat) {
    k < |s.jobs| && n <= |s.jobs[k].rows|
  }

  /** Positions in the order of a run. */
  ghost predicate NotAfter(k: nat, n: nat, k': nat, n': nat) {
    k < k' || (k == k' && n <= n')
  }

  ghost predicate RowAt(jobs: seq<Job>, i: int, j: int) {
    0 <= i < |jobs| && 0 <= j < |jobs[i].rows|
  }

  /** Some of these positions lies before the moment at which `n` rows of map `k` are done. */
  ghost predicate Reached(at: iset<(nat, nat)>, k: nat, n: nat) {
    exists c | c in at :: NotAfter(c.0, c.1 + 1, k, n)
  }

  lemma ReachedNext(at: iset<(nat, nat)>, k: nat, n: nat)
    ensures Reached(at, k, n + 1) <==> Reached(at, k, n) || (k, n) in at
  {
    if (k, n) in at {
      assert NotAfter((k, n).0, (k, n).1 + 1, k, n + 1);
    }
    if c :| c in at && NotAfter(c.0, c.1 + 1, k, n + 1) {
      assert NotAfter(c.0, c.1 + 1, k, n) || c == (k, n);
    }
    if c :| c in at && NotAfter(c.0, c.1 + 1, k, n) {
      assert NotAfter(c.0, c.1 + 1, k, n + 1);
    }
  }

  lemma ReachedLater(at: iset<(nat, nat)>, i: nat, j: nat, k: nat)
    requires i < k && Reached(at, i, j)
    ensures Reached(at, k, 0)
  {
    var c :| c in at && NotAfter(c.0, c.1 + 1, i, j);
    assert NotAfter(c.0, c.1 + 1, k, 0);
  }

  lemma ReachedAtOpen(at: iset<(nat, nat)>, jobs: seq<Job>, k: nat)
    requires 0 < k < |jobs| && forall c | c in at :: RowAt(jobs, c.0, c.1)
    ensures Reached(at, k, 0) <==> Reached(at, k - 1, |jobs[k - 1].rows|)
  {
    if c :| c in at && NotAfter(c.0, c.1 + 1, k, 0) {
      assert RowAt(jobs, c.0, c.1);
      assert NotAfter(c.0, c.1 + 1, k - 1, |jobs[k - 1].rows|);
    }
    if Reached(at, k - 1, |jobs[k - 1].rows|) {
      ReachedLater(at, k - 1, |jobs[k - 1].rows|, k);
    }
  }

  lemma ReachedAtEnd(at: iset<(nat, nat)>, jobs: seq<Job>)
    requires jobs != [] && forall c | c in at :: RowAt(jobs, c.0, c.1)
    ensures at != iset{} <==> Reached(at, |jobs| - 1, |jobs[|jobs| - 1].rows|)
  {
    if c :| c in at {
      assert RowAt(jobs, c.0, c.1);
      assert NotAfter(c.0, c.1 + 1, |jobs| - 1, |jobs[|jobs| - 1].rows|);
    }
  }

  ghost predicate Opens(s: Setup, holds: (nat, nat) -> bool, k: nat)
    requires k < |s.jobs|
  {
    (k > 0 ==> holds(k - 1, |s.jobs[k - 1].rows|)) ==> holds(k, 0)
  }

  ghost predicate Carries(holds: (nat, nat) -> bool, k: nat, n: nat) {
    holds(k, n) ==> holds(k, n + 1)
  }

  /** What the start of a map and each of its rows carry on holds at every moment of a run. */
  lemma {:induction false} CarriedOn(s: Setup, holds: (nat, nat) -> bool, k: nat, n: nat)
    requires Position(s, k, n)
    requires forall i: nat | i < |s.jobs| :: Opens(s, holds, i)
    requires forall i: nat, j: nat | i < |s.jobs| && j < |s.jobs[i].rows| :: Carries(holds, i, j)
    ensures holds(k, n)
    decreases k, n
  {
    if n == 0 {
      if k > 0 {
        CarriedOn(s, holds, k - 1, |s.jobs[k - 1].rows|);
      }
      assert Opens(s, holds, k);
    } else {
      CarriedOn(s, holds, k, n - 1);
      assert Carries(holds, k, n - 1);
    }
  }

  lemma OpenIsBefore(s: Setup, db: Database, k: nat)
    requires k < |s.jobs|
    ensures At(s, db, k, 0).db == Before(s, db, k).db && At(s, db, k, 0).log == Before(s, db, k).log
    ensures k == 0 ==> At(s, db, k, 0).db == db && At(s, db, k, 0).log == []
  {
  }

  lemma OpenKeepsMaps(s: Setup, db: Database, k: nat, t: string)
    requires k < |s.jobs|
    ensures IdMap(At(s, db, k, 0).idMaps, t) == IdMap(Before(s, db, k).idMaps, t)
    ensures k == 0 ==> IdMap(At(s, db, k, 0).idMaps, t) == map[]
  {
  }

  lemma FinalIsLast(s: Setup, db: Database)
    requires s.jobs != []
    ensures Final(s, db) == At(s, db, |s.jobs| - 1, |s.jobs[|s.jobs| - 1].rows|)
  {
  }

  ghost predicate GrowsByOne(st: State, st': State, m: TableMap, execute: bool, t: string) {
    && |st'.log| == |st.log| + 1 && st'.log[..|st.log|] == st.log
    && Rows(st.db, t) <= Rows(st'.db, t)
    && (t != m.target || !execute ==> Rows(st'.db, t) == Rows(st.db, t))
  }

  lemma AdmitGrows(st: State, job: nat, m: TableMap, src: Old, row: Row, execute: bool, answer: Answer, t: string)
    ensures GrowsByOne(st, Admit(st, job, m, src, row, execute, answer), m, execute, t)
  {
  }

  lemma SkippedGrows(st: State, job: nat, m: TableMap, src: Old, row: Row, execute: bool, t: string)
    requires Matches(Keys(m, row), st.index) != {}
    ensures GrowsByOne(st, Skipped(st, job, m, src, row), m, execute, t)
  {
  }

  /** A row adds at most itself to its own table and exactly one entry to the log. */
  lemma StepGrows(st: State, job: nat, m: TableMap, src: Old, execute: bool, answer: Answer, t: string)
    ensures GrowsByOne(st, Step(st, job, m, src, execute, answer), m, execute, t)
  {
    match Remapped(m, st.idMaps, src)
    case None =>
    case Some(row) =>
      if Keys(m, row) == {} {
      } else if Matches(Keys(m, row), st.index) == {} {
        AdmitGrows(st, job, m, src, row, execute, answer, t);
      } else {
        SkippedGrows(st, job, m, src, row, execute, t);
      }
  }

  lemma OneRowGrows(s: Setup, db: Database, k: nat, n: nat, t: string)
    requires Position(s, k, n) && n < |s.jobs[k].rows|
    ensures Rows(At(s, db, k, n).db, t) <= Rows(At(s, db, k, n + 1).db, t)
  {
    StepGrows(At(s, db, k, n), k, s.jobs[k].m, s.jobs[k].rows[n], s.execute, s.answers(k, n), t);
  }

  /** The rows of a table at one moment of a run are a prefix of its rows at any later moment. */
  lemma {:induction false} DbGrows(s: Setup, db: Database, k: nat, n: nat, k': nat, n': nat, t: string)
    requires Position(s, k, n) && Position(s, k', n') && NotAfter(k, n, k', n')
    ensures Rows(At(s, db, k, n).db, t) <= Rows(At(s, db, k', n').db, t)
    decreases k', n'
  {
    if k == k' && n == n' {
    } else if n' > 0 {
      DbGrows(s, db, k, n, k', n' - 1, t);
      OneRowGrows(s, db, k', n' - 1, t);
    } else {
      DbGrows(s, db, k, n, k' - 1, |s.jobs[k' - 1].rows|, t);
      OpenIsBefore(s, db, k');
    }
  }

  /** While a map is open its index is the index of its table, extended by what a preview named. */
  lemma {:induction false} OpenIndex(s: Setup, db: Database, k: nat, n: nat)
    requires Position(s, k, n) && s.execute
    ensures At(s, db, k, n).index == IndexOf(s.jobs[k].m, Rows(At(s, db, k, n).db, s.jobs[k].m.target))
    decreases n
  {
    if n > 0 {
      OpenIndex(s, db, k, n - 1);
      var st, m, src := At(s, db, k, n - 1), s.jobs[k].m, s.jobs[k].rows[n - 1];
      var row := Remapped(m, st.idMaps, src);
      if row.Some? && Keys(m, row.value) != {} && Matches(Keys(m, row.value), st.index) == {}
        && s.answers(k, n - 1).Assigned? {
        IndexAfterInsert(m, Rows(st.db, m.target), Rec(s.answers(k, n - 1).id, row.value));
      }
    }
  }

  lemma {:induction false} PreviewKeepsDb(s: Setup, db: Database, k: nat, n: nat)
    requires Position(s, k, n) && !s.execute
    ensures At(s, db, k, n).db == db
    decreases k, n
  {
    if n > 0 {
      PreviewKeepsDb(s, db, k, n - 1);
    } else if k > 0 {
      PreviewKeepsDb(s, db, k - 1, |s.jobs[k - 1].rows|);
    }
  }

  /** Source keys that have been mapped belong to rows that have been processed. */
  ghost predicate Processed(s: Setup, k: nat, n: nat, t: string, pk: string) {
    exists i: nat, j: nat :: (i < k || (i == k && j < n)) && IsRow(s.jobs, i, j, t, pk)
  }

  ghost predicate IsRow(jobs: seq<Job>, i: nat, j: nat, t: string, pk: string) {
    i < |jobs| && j < |jobs[i].rows| && jobs[i].m.target == t && jobs[i].rows[j].pk == pk
  }

  /** A row maps at most its own source key, in the id map of its own target. */
  lemma StepMaps(st: State, job: nat, m: TableMap, src: Old, execute: bool, answer: Answer, t: string, pk: string)
    requires pk in IdMap(Step(st, job, m, src, execute, answer).idMaps, t)
    ensures pk in IdMap(st.idMaps, t) || (t == m.target && pk == src.pk)
  {
  }

  lemma {:induction false} MappedIsProcessed(s: Setup, db: Database, k: nat, n: nat, t: string, pk: string)
    requires Position(s, k, n)
    requires pk in IdMap(At(s, db, k, n).idMaps, t)
    ensures Processed(s, k, n, t, pk)
    decreases k, n
  {
    if n > 0 {
      StepMaps(At(s, db, k, n - 1), k, s.jobs[k].m, s.jobs[k].rows[n - 1], s.execute, s.answers(k, n - 1), t, pk);
      if t == s.jobs[k].m.target && pk == s.jobs[k].rows[n - 1].pk {
        assert IsRow(s.jobs, k, n - 1, t, pk);
      } else {
        MappedIsProcessed(s, db, k, n - 1, t, pk);
      }
    } else {
      OpenKeepsMaps(s, db, k, t);
      if k > 0 {
        MappedIsProcessed(s, db, k - 1, |s.jobs[k - 1].rows|, t, pk);
      }
    }
  }

  /** With distinct source keys a row is not yet mapped when its turn comes. */
  lemma NotYetMapped(s: Setup, db: Database, k: nat, n: nat)
    requires Position(s, k, n) && n < |s.jobs[k].rows| && DistinctPks(s.jobs)
    ensures s.jobs[k].rows[n].pk !in IdMap(At(s, db, k, n).idMaps, s.jobs[k].m.target)
  {
    var t, pk := s.jobs[k].m.target, s.jobs[k].rows[n].pk;
    if pk in IdMap(At(s, db, k, n).idMaps, t) {
      MappedIsProcessed(s, db, k, n, t, pk);
    }
  }
}
