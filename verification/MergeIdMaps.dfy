/** Exactly when the second run maps every source key as the first one did. */
module MergeIdMaps {
  import opened Common
  import opened MergeModel
  import opened MergeBasics
  import opened MergeIdempotence

  ghost predicate SameMaps(a: IdMaps, b: IdMaps) {
    forall t :: IdMap(a, t) == IdMap(b, t)
  }

  /** The row is one row of the table, by its keys. */
  ghost predicate OneMatch(m: TableMap, row: Option<Row>, index: Index) {
    row.Some? && exists id :: Matches(Keys(m, row.value), index) == {id}
  }

  // ---------------------------------------------------------------- one row

  lemma {:induction false} ResolveSame(fks: seq<ForeignKey>, n: nat, a: IdMaps, b: IdMaps, row: Row)
    requires n <= |fks| && SameMaps(a, b)
    ensures Resolve(fks, n, a, row) == Resolve(fks, n, b, row)
  {
    if n > 0 {
      ResolveSame(fks, n - 1, a, b, row);
      var fk := fks[n - 1];
      assert IdMap(a, fk.references) == IdMap(b, fk.references);
    }
  }

  /** A row touches at most its own entry of the id maps. */
  ghost predicate OwnEntry(a: IdMaps, a': IdMaps, t: string, pk: string) {
    && (forall u | u != t :: IdMap(a', u) == IdMap(a, u))
    && (forall q | q != pk :: q in IdMap(a', t) <==> q in IdMap(a, t))
    && (forall q | q != pk && q in IdMap(a, t) :: IdMap(a', t)[q] == IdMap(a, t)[q])
  }

  lemma MapToOwn(st: State, m: TableMap, src: Old, id: Id)
    ensures OwnEntry(st.idMaps, MapTo(st, m, src, id).idMaps, m.target, src.pk)
  {
    assert IdMap(MapTo(st, m, src, id).idMaps, m.target) == IdMap(st.idMaps, m.target)[src.pk := id];
  }

  lemma StepOwn(st: State, job: nat, m: TableMap, src: Old, execute: bool, answer: Answer)
    ensures OwnEntry(st.idMaps, Step(st, job, m, src, execute, answer).idMaps, m.target, src.pk)
  {
    var row := Remapped(m, st.idMaps, src);
    if row.Some? && Keys(m, row.value) != {} {
      if Matches(Keys(m, row.value), st.index) == {} {
        MapToOwn(st, m, src, if execute && answer.Assigned? then answer.id else Placeholder(m.target, src.pk));
      } else {
        SkipEffect(st, job, m, src, execute, answer, row.value);
        forall id
          ensures OwnEntry(st.idMaps, MapTo(st, m, src, id).idMaps, m.target, src.pk)
        {
          MapToOwn(st, m, src, id);
        }
      }
    }
  }

  /** A quiet row is mapped exactly when one row matches. */
  lemma QuietMaps(b: State, job: nat, m: TableMap, src: Old, execute: bool, answer: Answer)
    requires src.pk !in IdMap(b.idMaps, m.target) && QuietStep(b, Step(b, job, m, src, execute, answer))
    ensures src.pk in IdMap(Step(b, job, m, src, execute, answer).idMaps, m.target)
      <==> OneMatch(m, Remapped(m, b.idMaps, src), b.index)
  {
    var row := Remapped(m, b.idMaps, src);
    if row.Some? && Matches(Keys(m, row.value), b.index) != {} {
      SkipEffect(b, job, m, src, execute, answer, row.value);
    }
  }

  /** Equal id maps stay equal over a row exactly when the second run maps it where the first one did. */
  lemma RowKeepsMaps(a: IdMaps, b: IdMaps, a': IdMaps, b': IdMaps, t: string, pk: string, ts: iset<string>)
    requires SameMaps(a, b) && OwnEntry(a, a', t, pk) && OwnEntry(b, b', t, pk) && t in ts && SubMaps(b', a', ts)
    requires pk !in IdMap(a, t)
    ensures SameMaps(a', b') <==> (pk in IdMap(a', t) ==> pk in IdMap(b', t))
  {
    assert SubMap(IdMap(b', t), IdMap(a', t));
    assert IdMap(a, t) == IdMap(b, t);
    forall u | u != t
      ensures IdMap(a', u) == IdMap(b', u)
    {
      assert IdMap(a, u) == IdMap(b, u);
    }
  }

  /** A source key the second run has missed is not made up for by the row of another key. */
  lemma MissedStaysMissed(
      a: IdMaps, b: IdMaps, a': IdMaps, b': IdMaps, t: string, pk: string, u: string, missed: string)
    requires OwnEntry(a, a', t, pk) && OwnEntry(b, b', t, pk) && (u != t || missed != pk)
    requires missed in IdMap(a, u) && missed !in IdMap(b, u)
    ensures missed in IdMap(a', u) && missed !in IdMap(b', u)
  {
  }

  // ---------------------------------------------------------------- whole runs

  /** If the first run mapped the row, the merged table holds it once. */
  ghost predicate HoldsOnce(first: Setup, db: Database, db': Database, k: nat, n: nat)
    requires Position(first, k, n) && n < |first.jobs[k].rows|
  {
    var m, src := first.jobs[k].m, first.jobs[k].rows[n];
    src.pk in IdMap(At(first, db, k, n + 1).idMaps, m.target) ==>
      OneMatch(m, Remapped(m, At(first, db, k, n).idMaps, src), IndexOf(m, Rows(db', m.target)))
  }

  /** The rows before a moment that the merged tables do not hold once. */
  ghost function Blurred(first: Setup, db: Database, db': Database): iset<(nat, nat)> {
    iset i: nat, j: nat | Position(first, i, j) && j < |first.jobs[i].rows| && !HoldsOnce(first, db, db', i, j) ::
      (i, j)
  }

  ghost predicate AllSettled(first: Setup, db: Database, db': Database) {
    forall k | 0 <= k < |first.jobs| :: Settled(first, db, db', first.jobs[k].m.target)
  }

  /** A source key that the first run has mapped and the second has not. */
  ghost predicate Missed(a: IdMaps, b: IdMaps, t: string, pk: string) {
    pk in IdMap(a, t) && pk !in IdMap(b, t)
  }

  /** With the second maps part of the first on every target, they are equal or some key is missed. */
  lemma EqualOrMissed(first: Setup, db: Database, db': Database, k: nat, n: nat, a: IdMaps, b: IdMaps)
    requires Position(first, k, n) && a == At(first, db, k, n).idMaps && AllSettled(first, db, db')
    requires SubMaps(b, a, SettledTables(first, db, db'))
    requires forall t, pk | pk in IdMap(b, t) :: Target(first, t)
    ensures SameMaps(a, b) || exists t, pk :: Missed(a, b, t, pk)
  {
    if !exists t, pk :: Missed(a, b, t, pk) {
      forall t
        ensures IdMap(a, t) == IdMap(b, t)
      {
        TargetsOnly(first, db, k, n, t);
        if Target(first, t) {
          assert t in SettledTables(first, db, db');
          assert SubMap(IdMap(b, t), IdMap(a, t));
        }
        assert forall pk | pk in IdMap(a, t) :: !Missed(a, b, t, pk);
        assert forall pk | pk in IdMap(b, t) :: pk in IdMap(a, t) && IdMap(b, t)[pk] == IdMap(a, t)[pk];
      }
    }
  }

  ghost predicate Target(s: Setup, t: string) {
    exists k | 0 <= k < |s.jobs| :: s.jobs[k].m.target == t
  }

  lemma TargetsOnly(s: Setup, db: Database, k: nat, n: nat, t: string)
    requires Position(s, k, n)
    ensures forall pk | pk in IdMap(At(s, db, k, n).idMaps, t) :: Target(s, t)
  {
    forall pk | pk in IdMap(At(s, db, k, n).idMaps, t)
      ensures Target(s, t)
    {
      MappedIsProcessed(s, db, k, n, t, pk);
      var i: nat, j: nat :| (i < k || (i == k && j < n)) && IsRow(s.jobs, i, j, t, pk);
      assert s.jobs[i].m.target == t;
    }
  }

  /** The state of both runs at one moment. */
  ghost predicate Together(first: Setup, second: Setup, db: Database, db': Database, k: nat, n: nat) {
    && first.jobs == second.jobs && Position(first, k, n)
    && SameMaps(At(first, db, k, n).idMaps, At(second, db', k, n).idMaps) == !Reached(Blurred(first, db, db'), k, n)
  }

  lemma SecondTargetsOnly(first: Setup, second: Setup, db': Database, k: nat, n: nat)
    requires first.jobs == second.jobs && Position(first, k, n)
    ensures forall t, pk | pk in IdMap(At(second, db', k, n).idMaps, t) :: Target(first, t)
  {
    forall t, pk | pk in IdMap(At(second, db', k, n).idMaps, t)
      ensures Target(first, t)
    {
      TargetsOnly(second, db', k, n, t);
      assert Target(second, t);
    }
  }

  /** What both runs have in common at one row: it is quiet in the second, and its own business. */
  lemma BothAtRow(first: Setup, second: Setup, db: Database, db': Database, k: nat, n: nat)
    requires Reruns(first, second, db, db') && Position(first, k, n) && n < |first.jobs[k].rows|
    ensures var m, src := first.jobs[k].m, first.jobs[k].rows[n];
      var a, b := At(first, db, k, n), At(second, db', k, n);
      var a', b' := At(first, db, k, n + 1), At(second, db', k, n + 1);
      && OwnEntry(a.idMaps, a'.idMaps, m.target, src.pk) && OwnEntry(b.idMaps, b'.idMaps, m.target, src.pk)
      && src.pk !in IdMap(a.idMaps, m.target) && src.pk !in IdMap(b.idMaps, m.target)
  {
    var m, src := first.jobs[k].m, first.jobs[k].rows[n];
    NotYetMapped(first, db, k, n);
    NotYetMapped(second, db', k, n);
    StepOwn(At(first, db, k, n), k, m, src, first.execute, first.answers(k, n));
    StepOwn(At(second, db', k, n), k, m, src, second.execute, second.answers(k, n));
  }

  lemma SecondIsQuiet(first: Setup, second: Setup, db: Database, db': Database, k: nat, n: nat)
    requires Reruns(first, second, db, db') && Position(first, k, n) && n < |first.jobs[k].rows|
    ensures QuietStep(At(second, db', k, n), At(second, db', k, n + 1))
    ensures At(second, db', k, n).index == IndexOf(first.jobs[k].m, Rows(db', first.jobs[k].m.target))
    ensures SubMaps(At(second, db', k, n + 1).idMaps, At(first, db, k, n + 1).idMaps, SettledTables(first, db, db'))
  {
    SecondRunFollows(first, second, db, db', k, n);
    SecondRunFollows(first, second, db, db', k, n + 1);
    OneRowLogs(second, db', k, n);
    LastOfPrefix(At(second, db', k, n + 1).log, At(second, db', k, n + 1).log);
  }

  /** While the maps are equal, a row keeps them equal exactly when the merged table holds it once. */
  lemma EqualNext(first: Setup, second: Setup, db: Database, db': Database, k: nat, n: nat)
    requires Reruns(first, second, db, db') && AllSettled(first, db, db')
    requires Position(first, k, n) && n < |first.jobs[k].rows|
    requires SameMaps(At(first, db, k, n).idMaps, At(second, db', k, n).idMaps)
    ensures SameMaps(At(first, db, k, n + 1).idMaps, At(second, db', k, n + 1).idMaps)
      <==> HoldsOnce(first, db, db', k, n)
  {
    var m, src := first.jobs[k].m, first.jobs[k].rows[n];
    var a, b := At(first, db, k, n), At(second, db', k, n);
    var a', b' := At(first, db, k, n + 1), At(second, db', k, n + 1);
    BothAtRow(first, second, db, db', k, n);
    SecondIsQuiet(first, second, db, db', k, n);
    assert m.target in SettledTables(first, db, db');
    RowKeepsMaps(a.idMaps, b.idMaps, a'.idMaps, b'.idMaps, m.target, src.pk, SettledTables(first, db, db'));
    QuietMaps(b, k, m, src, second.execute, second.answers(k, n));
    ResolveSame(m.foreignKeys, |m.foreignKeys|, a.idMaps, b.idMaps, Lift(src.cells));
  }

  /** Once the second run has missed a source key the maps stay different. */
  lemma UnequalNext(first: Setup, second: Setup, db: Database, db': Database, k: nat, n: nat)
    requires Reruns(first, second, db, db') && AllSettled(first, db, db')
    requires Position(first, k, n) && n < |first.jobs[k].rows|
    requires !SameMaps(At(first, db, k, n).idMaps, At(second, db', k, n).idMaps)
    ensures !SameMaps(At(first, db, k, n + 1).idMaps, At(second, db', k, n + 1).idMaps)
  {
    var m, src := first.jobs[k].m, first.jobs[k].rows[n];
    var a, b := At(first, db, k, n).idMaps, At(second, db', k, n).idMaps;
    var a', b' := At(first, db, k, n + 1).idMaps, At(second, db', k, n + 1).idMaps;
    SecondRunFollows(first, second, db, db', k, n);
    SecondTargetsOnly(first, second, db', k, n);
    EqualOrMissed(first, db, db', k, n, a, b);
    var t, pk :| Missed(a, b, t, pk);
    BothAtRow(first, second, db, db', k, n);
    MissedStaysMissed(a, b, a', b', m.target, src.pk, t, pk);
  }

  lemma TogetherNext(first: Setup, second: Setup, db: Database, db': Database, k: nat, n: nat)
    requires Reruns(first, second, db, db') && AllSettled(first, db, db')
    requires Position(first, k, n) && n < |first.jobs[k].rows| && Together(first, second, db, db', k, n)
    ensures Together(first, second, db, db', k, n + 1)
  {
    var blurred := Blurred(first, db, db');
    ReachedNext(blurred, k, n);
    if SameMaps(At(first, db, k, n).idMaps, At(second, db', k, n).idMaps) {
      EqualNext(first, second, db, db', k, n);
      assert (k, n) in blurred <==> !HoldsOnce(first, db, db', k, n);
    } else {
      UnequalNext(first, second, db, db', k, n);
    }
  }

  lemma BlurredAreRows(first: Setup, db: Database, db': Database)
    ensures forall c | c in Blurred(first, db, db') :: RowAt(first.jobs, c.0, c.1)
  {
  }

  lemma OpenSame(a: State, b: State, m: TableMap)
    ensures SameMaps(Open(a, m).idMaps, Open(b, m).idMaps) <==> SameMaps(a.idMaps, b.idMaps)
  {
    forall t
      ensures IdMap(Open(a, m).idMaps, t) == IdMap(a.idMaps, t)
      ensures IdMap(Open(b, m).idMaps, t) == IdMap(b.idMaps, t)
    {
    }
  }

  lemma TogetherAtStart(first: Setup, second: Setup, db: Database, db': Database)
    requires first.jobs == second.jobs && first.jobs != []
    ensures Together(first, second, db, db', 0, 0)
  {
    OpenSame(Initial(db), Initial(db'), first.jobs[0].m);
    assert !Reached(Blurred(first, db, db'), 0, 0);
  }

  lemma TogetherOpen(first: Setup, second: Setup, db: Database, db': Database, k: nat)
    requires first.jobs == second.jobs && 0 < k < |first.jobs|
    ensures Together(first, second, db, db', k - 1, |first.jobs[k - 1].rows|) ==> Together(first, second, db, db', k, 0)
  {
    OpenSame(Before(first, db, k), Before(second, db', k), first.jobs[k].m);
    BlurredAreRows(first, db, db');
    ReachedAtOpen(Blurred(first, db, db'), first.jobs, k);
  }

  ghost function TogetherAt(first: Setup, second: Setup, db: Database, db': Database): (nat, nat) -> bool
  {
    (k: nat, n: nat) => Together(first, second, db, db', k, n)
  }

  lemma TogetherSoFar(first: Setup, second: Setup, db: Database, db': Database, k: nat, n: nat)
    requires Reruns(first, second, db, db') && AllSettled(first, db, db') && Position(first, k, n)
    ensures TogetherAt(first, second, db, db')(k, n)
  {
    forall i: nat | i < |first.jobs|
      ensures Opens(first, TogetherAt(first, second, db, db'), i)
    {
      TogetherOpens(first, second, db, db', i);
    }
    forall i: nat, j: nat | i < |first.jobs| && j < |first.jobs[i].rows|
      ensures Carries(TogetherAt(first, second, db, db'), i, j)
    {
      TogetherCarries(first, second, db, db', i, j);
    }
    CarriedOn(first, TogetherAt(first, second, db, db'), k, n);
  }

  lemma TogetherOpens(first: Setup, second: Setup, db: Database, db': Database, k: nat)
    requires first.jobs == second.jobs && k < |first.jobs|
    ensures Opens(first, TogetherAt(first, second, db, db'), k)
  {
    if k == 0 {
      TogetherAtStart(first, second, db, db');
      assert TogetherAt(first, second, db, db')(0, 0);
    } else {
      TogetherOpen(first, second, db, db', k);
    }
  }

  lemma TogetherCarries(first: Setup, second: Setup, db: Database, db': Database, k: nat, n: nat)
    requires Reruns(first, second, db, db') && AllSettled(first, db, db')
    requires Position(first, k, n) && n < |first.jobs[k].rows|
    ensures Carries(TogetherAt(first, second, db, db'), k, n)
  {
    if TogetherAt(first, second, db, db')(k, n) {
      TogetherNext(first, second, db, db', k, n);
    }
  }

  /**
   * A second run that inserts nothing can still lose a mapping: a row that was matched on one key is ambiguous
   * once a later row has been inserted with its other key. It maps every source key as the first run did exactly
   * when each row the first run matched or inserted is, by its keys, one row of the merged table.
   */
  lemma SecondRunMapsSame(first: Setup, second: Setup, db: Database, db': Database)
    requires Reruns(first, second, db, db') && AllSettled(first, db, db')
    ensures SameMaps(Final(first, db).idMaps, Final(second, db').idMaps)
      <==> forall k: nat, n: nat | Position(first, k, n) && n < |first.jobs[k].rows| :: HoldsOnce(first, db, db', k, n)
  {
    if first.jobs != [] {
      TogetherAtEnd(first, second, db, db');
    }
    NoneBlurred(first, db, db');
  }

  lemma TogetherAtLast(first: Setup, second: Setup, db: Database, db': Database, k: nat, n: nat)
    requires Reruns(first, second, db, db') && AllSettled(first, db, db')
    requires k == |first.jobs| - 1 && n == |first.jobs[k].rows|
    ensures SameMaps(At(first, db, k, n).idMaps, At(second, db', k, n).idMaps) <==> Blurred(first, db, db') == iset{}
  {
    TogetherSoFar(first, second, db, db', k, n);
    BlurredAreRows(first, db, db');
    ReachedAtEnd(Blurred(first, db, db'), first.jobs);
  }

  lemma TogetherAtEnd(first: Setup, second: Setup, db: Database, db': Database)
    requires Reruns(first, second, db, db') && AllSettled(first, db, db') && first.jobs != []
    ensures SameMaps(Final(first, db).idMaps, Final(second, db').idMaps) <==> Blurred(first, db, db') == iset{}
  {
    TogetherAtLast(first, second, db, db', |first.jobs| - 1, |first.jobs[|first.jobs| - 1].rows|);
    FinalIsLast(first, db);
    FinalIsLast(second, db');
  }

  lemma NoneBlurred(first: Setup, db: Database, db': Database)
    ensures Blurred(first, db, db') == iset{}
      <==> forall k: nat, n: nat | Position(first, k, n) && n < |first.jobs[k].rows| :: HoldsOnce(first, db, db', k, n)
  {
    assert forall k: nat, n: nat | Position(first, k, n) && n < |first.jobs[k].rows| ::
        HoldsOnce(first, db, db', k, n) || (k, n) in Blurred(first, db, db');
  }
}
