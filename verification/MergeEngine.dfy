/** `Merger` of migration/merge_engine.py: the loops that update the index, the id maps, the log and the summary. */
module MergeEngine {
  import opened Common
  import opened MergeModel
  import opened MergeRenaming

  function ActionOf(o: Outcome): string {
    match o
    case UnresolvedFk => "skipped_unresolved_fk"
    case NoNaturalKey => "skipped_no_natural_key"
    case Ambiguous => "skipped_ambiguous"
    case Duplicate(_, _) => "skipped_duplicate"
    case InsertFailed => "skipped_insert_failed"
    case Missing(_) => "missing"
    case Inserted(_) => "inserted"
  }

  type Summary = map<string, map<string, nat>>

  function CountOf(summary: Summary, name: string, action: string): nat {
    if name in summary && action in summary[name] then summary[name][action] else 0
  }

  /** Lines of the log that a map of this name wrote with this action. */
  function Lines(log: seq<Entry>, jobs: seq<Job>, name: string, action: string): nat {
    if log == [] then 0
    else
      var e := log[|log| - 1];
      Lines(log[..|log| - 1], jobs, name, action)
      + if e.job < |jobs| && jobs[e.job].m.name == name && ActionOf(e.outcome) == action then 1 else 0
  }

  ghost predicate Tallies(summary: Summary, log: seq<Entry>, jobs: seq<Job>) {
    forall name, action :: CountOf(summary, name, action) == Lines(log, jobs, name, action)
  }

  /** The first `n` keys, unusable ones left out. */
  function UsableUpTo(m: TableMap, row: Row, n: nat): set<Key>
    requires n <= |m.naturalKeys|
  {
    set i | 0 <= i < n && KeyAt(m, row, i).Some? :: KeyAt(m, row, i).value
  }

  lemma OneMoreKey(m: TableMap, row: Row, n: nat)
    requires n < |m.naturalKeys|
    ensures UsableUpTo(m, row, n + 1)
      == UsableUpTo(m, row, n) + match KeyAt(m, row, n) case Some(k) => {k} case None => {}
  {
  }

  lemma SetDefault(index: Index, keys: set<Key>, k: Key, id: Id)
    ensures AddKeys(index, keys + {k}, id)
      == if k in AddKeys(index, keys, id) then AddKeys(index, keys, id) else AddKeys(index, keys, id)[k := id]
  {
  }

  /** One `setdefault`. */
  lemma RegisterNext(before: Index, m: TableMap, row: Row, n: nat, id: Id)
    requires n < |m.naturalKeys|
    ensures var index := AddKeys(before, UsableUpTo(m, row, n), id);
      AddKeys(before, UsableUpTo(m, row, n + 1), id)
        == match KeyAt(m, row, n) case Some(k) => (if k in index then index else index[k := id]) case None => index
  {
    OneMoreKey(m, row, n);
    match KeyAt(m, row, n)
    case Some(k) => SetDefault(before, UsableUpTo(m, row, n), k, id);
    case None => assert UsableUpTo(m, row, n) + {} == UsableUpTo(m, row, n);
  }

  lemma RegisterFirst(before: Index, m: TableMap, row: Row, id: Id)
    ensures AddKeys(before, UsableUpTo(m, row, 0), id) == before
  {
    assert UsableUpTo(m, row, 0) == {};
  }

  class Merger {
    const jobs: seq<Job>
    const execute: bool
    const answers: (nat, nat) -> Answer

    /** The target database, and what a run leaves beside it. */
    var db: Database
    var idMaps: IdMaps
    var log: seq<Entry>
    var summary: Summary

    constructor (jobs: seq<Job>, db: Database, execute: bool, answers: (nat, nat) -> Answer)
      ensures this.jobs == jobs && this.execute == execute && this.answers == answers && this.db == db
      ensures idMaps == map[] && log == [] && summary == map[]
    {
      this.jobs, this.execute, this.answers, this.db := jobs, execute, answers, db;
      idMaps, log, summary := map[], [], map[];
    }

    ghost function Config(): Setup {
      Setup(jobs, execute, answers)
    }

    ghost function Now(index: Index): State
      reads this
    {
      State(db, idMaps, index, log)
    }

    /** The ordering rule and the listed-column rule; the schema checks are not part of this model. */
    method Validate() returns (ok: bool)
      ensures ok <==> Accepted(jobs)
    {
      ok := true;
      var merged := {};
      for k := 0 to |jobs|
        invariant merged == set p | 0 <= p < k :: jobs[p].m.target
        invariant ok <==> forall i | 0 <= i < k :: AcceptedMap(jobs, i)
      {
        var fks := jobs[k].m.foreignKeys;
        var fine := true;
        for f := 0 to |fks|
          invariant fine <==> forall g | 0 <= g < f :: AcceptedFk(jobs, k, fks[g])
        {
          if fks[f].references !in merged {
            fine := false;
          }
          if fks[f].column !in jobs[k].m.columns {
            fine := false;
          }
        }
        assert fine <==> AcceptedMap(jobs, k);
        ok := ok && fine;
        merged := merged + {jobs[k].m.target};
      }
    }

    method KeysOf(m: TableMap, row: Row) returns (keys: seq<Option<Key>>)
      ensures |keys| == |m.naturalKeys| && forall i | 0 <= i < |keys| :: keys[i] == KeyAt(m, row, i)
    {
      keys := [];
      for i := 0 to |m.naturalKeys|
        invariant |keys| == i && forall j | 0 <= j < i :: keys[j] == KeyAt(m, row, j)
      {
        keys := keys + [KeyAt(m, row, i)];
      }
    }

    /** `setdefault` of every usable key of one row. */
    method Register(m: TableMap, row: Row, id: Id, before: Index) returns (index: Index)
      ensures index == AddKeys(before, Keys(m, row), id)
    {
      var keys := KeysOf(m, row);
      index := before;
      RegisterFirst(before, m, row, id);
      for i := 0 to |keys|
        invariant index == AddKeys(before, UsableUpTo(m, row, i), id)
      {
        RegisterNext(before, m, row, i, id);
        if keys[i].Some? {
          if keys[i].value !in index {
            index := index[keys[i].value := id];
          }
        }
      }
      assert UsableUpTo(m, row, |keys|) == Keys(m, row);
    }

    method LoadIndex(m: TableMap) returns (index: Index)
      ensures index == IndexOf(m, Rows(db, m.target))
    {
      var rows := Rows(db, m.target);
      index := map[];
      for x := 0 to |rows|
        invariant index == IndexOf(m, rows[..x])
      {
        assert rows[..x + 1][..x] == rows[..x];
        index := Register(m, rows[x].row, rows[x].id, index);
      }
      assert rows[..|rows|] == rows;
    }

    method RemapForeignKeys(m: TableMap, src: Old) returns (row: Option<Row>)
      ensures row == Remapped(m, idMaps, src)
    {
      var built := Lift(src.cells);
      for f := 0 to |m.foreignKeys|
        invariant Resolve(m.foreignKeys, f, idMaps, Lift(src.cells)) == Some(built)
      {
        var fk := m.foreignKeys[f];
        if Cell(built, fk.column) != Null {
          var parent := Lookup(idMaps, fk.references, Cell(built, fk.column));
          if parent == None && fk.onMissing == SetNull {
            built := built[fk.column := Null];
          } else if parent == None {
            NeverResolves(m, f + 1, src);
            return None;
          } else {
            built := built[fk.column := Ref(parent.value)];
          }
        }
      }
      row := Some(built);
    }

    /** Once a required parent is missing the row stays unresolved. */
    lemma {:induction false} NeverResolves(m: TableMap, n: nat, src: Old)
      requires n <= |m.foreignKeys| && Resolve(m.foreignKeys, n, idMaps, Lift(src.cells)) == None
      ensures Remapped(m, idMaps, src) == None
      decreases |m.foreignKeys| - n
    {
      if n < |m.foreignKeys| {
        NeverResolves(m, n + 1, src);
      }
    }

    /** One line of the log and its count in the summary. */
    method Note(k: nat, src: Old, outcome: Outcome, keys: set<Key>)
      requires k < |jobs| && Tallies(summary, log, jobs)
      modifies this`log, this`summary
      ensures log == old(log) + [Entry(k, jobs[k].m.target, src.pk, outcome, keys)]
      ensures Tallies(summary, log, jobs)
    {
      var name, action := jobs[k].m.name, ActionOf(outcome);
      var counts := if name in summary then summary[name] else map[];
      counts := counts[action := (if action in counts then counts[action] else 0) + 1];
      summary := summary[name := counts];
      log := log + [Entry(k, jobs[k].m.target, src.pk, outcome, keys)];
      assert log[..|log| - 1] == old(log);
    }

    /** The rows of the index that the usable keys of one row find. */
    method FindMatches(m: TableMap, row: Row, index: Index) returns (usable: set<Key>, ids: set<Id>, review: bool)
      ensures usable == Keys(m, row) && ids == Matches(Keys(m, row), index) && review == NeedsReview(m, row, index)
    {
      var keys := KeysOf(m, row);
      usable, ids := {}, {};
      for i := 0 to |keys|
        invariant usable == UsableUpTo(m, row, i) && ids == Matches(usable, index)
      {
        OneMoreKey(m, row, i);
        if keys[i].Some? {
          var key := keys[i].value;
          assert Matches(usable + {key}, index) == Matches(usable, index) + if key in index then {index[key]} else {};
          usable := usable + {key};
          if key in index {
            ids := ids + {index[key]};
          }
        }
      }
      assert UsableUpTo(m, row, |keys|) == Keys(m, row);
      review := |keys| > 0 && keys[0].Some? && keys[0].value !in index;
    }

    /** One source row. */
    method MergeRow(k: nat, n: nat, before: Index) returns (index: Index)
      requires k < |jobs| && n < |jobs[k].rows| && Tallies(summary, log, jobs)
      modifies this
      ensures Now(index) == Step(old(Now(before)), k, jobs[k].m, jobs[k].rows[n], execute, answers(k, n))
      ensures Tallies(summary, log, jobs)
    {
      var m, src := jobs[k].m, jobs[k].rows[n];
      index := before;
      var row := RemapForeignKeys(m, src);
      if row == None {
        Note(k, src, UnresolvedFk, {});
        return;
      }
      var usable, ids, review := FindMatches(m, row.value, index);
      if usable == {} {
        Note(k, src, NoNaturalKey, {});
        return;
      }
      if ids != {} {
        var id :| id in ids;
        if ids != {id} {
          assert ids - {id} != {} by {
            assert ids - {id} == {} ==> ids <= {id};
          }
          ghost var id' :| id' in ids - {id};
          SkippedWithMany(Now(before), k, m, src, row.value, id, id');
          Note(k, src, Ambiguous, usable);
        } else {
          SkippedWithOne(Now(before), k, m, src, row.value, id);
          idMaps := idMaps[m.target := IdMap(idMaps, m.target)[src.pk := id]];
          Note(k, src, Duplicate(id, review), usable);
        }
        return;
      }
      index := Admitted(k, n, row.value, usable, index);
    }

    /** The insert, or its name in a preview. */
    method Admitted(k: nat, n: nat, row: Row, usable: set<Key>, before: Index) returns (index: Index)
      requires k < |jobs| && n < |jobs[k].rows| && Tallies(summary, log, jobs) && usable == Keys(jobs[k].m, row)
      modifies this
      ensures Now(index) == Admit(old(Now(before)), k, jobs[k].m, jobs[k].rows[n], row, execute, answers(k, n))
      ensures Tallies(summary, log, jobs)
    {
      var m, src := jobs[k].m, jobs[k].rows[n];
      index := before;
      var id := Placeholder(m.target, src.pk);
      var outcome := Missing(id);
      if execute {
        if answers(k, n) == Rejected {
          Note(k, src, InsertFailed, usable);
          return;
        }
        id := answers(k, n).id;
        outcome := Inserted(id);
        db := db[m.target := Rows(db, m.target) + [Rec(id, row)]];
      }
      idMaps := idMaps[m.target := IdMap(idMaps, m.target)[src.pk := id]];
      index := Register(m, row, id, index);
      Note(k, src, outcome, usable);
    }

    /** The fields are those of the run from `start` when map `k` is about to begin. */
    ghost predicate Reached(start: Database, k: nat)
      requires k <= |jobs|
      reads this
    {
      var st := Before(Config(), start, k);
      db == st.db && idMaps == st.idMaps && log == st.log && Tallies(summary, log, jobs)
    }

    method OpenTable(k: nat, ghost start: Database) returns (index: Index)
      requires k < |jobs| && Reached(start, k)
      modifies this`idMaps
      ensures Now(index) == At(Config(), start, k, 0) && Tallies(summary, log, jobs)
    {
      var m := jobs[k].m;
      index := LoadIndex(m);
      idMaps := idMaps[m.target := IdMap(idMaps, m.target)];
    }

    method MergeTable(k: nat, ghost start: Database)
      requires k < |jobs| && Reached(start, k)
      modifies this
      ensures Reached(start, k + 1)
    {
      ghost var s := Config();
      var index := OpenTable(k, start);
      for n := 0 to |jobs[k].rows|
        invariant Tallies(summary, log, jobs)
        invariant Now(index) == At(s, start, k, n)
      {
        index := MergeRow(k, n, index);
        assert At(s, start, k, n + 1)
          == Step(At(s, start, k, n), k, s.jobs[k].m, s.jobs[k].rows[n], s.execute, s.answers(k, n));
      }
    }

    /** A whole run: refused by `validate`, or carried to the final state of the run. */
    method Run() returns (ok: bool)
      requires idMaps == map[] && log == [] && summary == map[]
      modifies this
      ensures ok <==> Accepted(jobs)
      ensures !ok ==> db == old(db) && log == [] && idMaps == map[]
      ensures ok ==> Reached(old(db), |jobs|)
    {
      ok := Validate();
      if !ok {
        return;
      }
      ghost var start := db;
      for k := 0 to |jobs|
        invariant Reached(start, k)
      {
        MergeTable(k, start);
      }
    }
  }
}
