/**
 * When exactly a second merge can insert. A table is needed when rows of some map are skipped unless they find a parent
 * in it.
 */
module MergeSecondRun {
  import opened Common
  import opened MergeModel
  import opened MergeBasics
  import opened MergeIdempotence
  import opened MergeStaging

  // ---------------------------------------------------------------- the maps

  ghost predicate KeyColumn(m: TableMap, c: string) {
    exists i | 0 <= i < |m.naturalKeys| :: c in m.naturalKeys[i]
  }

  ghost predicate RequiredColumn(m: TableMap, c: string) {
    exists f | 0 <= f < |m.foreignKeys| :: m.foreignKeys[f].onMissing == Skip && m.foreignKeys[f].column == c
  }

  ghost predicate InEveryKey(m: TableMap, c: string) {
    forall i | 0 <= i < |m.naturalKeys| :: c in m.naturalKeys[i]
  }

  /** Some rows are merged only with a parent in this table. */
  ghost predicate NeededIn(ms: seq<TableMap>, t: string) {
    exists k | 0 <= k < |ms| :: NeededBy(ms[k], t)
  }

  ghost predicate MergedBefore(ms: seq<TableMap>, k: nat, t: string)
    requires k <= |ms|
  {
    exists i | 0 <= i < k :: ms[i].target == t
  }

  /** Required foreign keys take part in every natural key, those that may become null in none. */
  ghost predicate ClearKeys(m: TableMap) {
    && StableKeys(m)
    && forall f | 0 <= f < |m.foreignKeys| && m.foreignKeys[f].onMissing == Skip ::
         InEveryKey(m, m.foreignKeys[f].column)
  }

  /** Required foreign keys refer to a table that is merged before. */
  ghost predicate ParentsFirst(ms: seq<TableMap>, k: nat)
    requires k < |ms|
  {
    forall f | 0 <= f < |ms[k].foreignKeys| && ms[k].foreignKeys[f].onMissing == Skip ::
      MergedBefore(ms, k, ms[k].foreignKeys[f].references)
  }

  /** The maps of one table compare rows alike and have the same parents. */
  ghost predicate MapsAgree(ms: seq<TableMap>, k: nat)
    requires k < |ms|
  {
    forall i | 0 <= i < |ms| && ms[i].target == ms[k].target ::
      SameScheme(ms[i], ms[k]) && ms[i].foreignKeys == ms[k].foreignKeys
  }

  /** One required parent at most; an absent key column makes a key unusable. */
  ghost predicate ParentMap(m: TableMap) {
    && (forall c | KeyColumn(m, c) :: m.normalize(c, None) == "")
    && forall f, g | 0 <= f < |m.foreignKeys| && 0 <= g < |m.foreignKeys|
         && m.foreignKeys[f].onMissing == Skip && m.foreignKeys[g].onMissing == Skip :: f == g
  }

  ghost predicate FamilyMap(ms: seq<TableMap>, k: nat)
    requires k < |ms|
  {
    && ClearKeys(ms[k]) && ParentsFirst(ms, k)
    && (NeededIn(ms, ms[k].target) ==> ParentMap(ms[k]) && MapsAgree(ms, k))
  }

  /** Any list of maps, of any depth; several maps may feed one table. */
  ghost predicate FamilyOfMaps(ms: seq<TableMap>) {
    forall k | 0 <= k < |ms| :: FamilyMap(ms, k)
  }

  // ---------------------------------------------------------------- the tables

  /** Key columns that are no required foreign keys hold no primary keys. */
  ghost predicate PlainKeys(m: TableMap, rows: seq<Rec>) {
    forall r, c | r in rows && KeyColumn(m, c) && !RequiredColumn(m, c) :: !Cell(r.row, c).Ref?
  }

  /** Whatever its parents become, the source row has a usable key, and none that a row of the table has. */
  ghost predicate IsNew(m: TableMap, rows: seq<Rec>, cells: Cells) {
    Proper(m, cells) && forall known :: Unknown(rows, m, RowOf(m, cells, known))
  }

  ghost predicate Unknown(rows: seq<Rec>, m: TableMap, row: Row) {
    Keys(m, row) != {} && Matches(Keys(m, row), IndexOf(m, rows)) == {}
  }

  ghost predicate CanBeNew(m: TableMap, rows: seq<Rec>) {
    exists cells :: IsNew(m, rows, cells)
  }

  /** A row with this id has a usable key. */
  ghost predicate IsKeyed(ms: seq<TableMap>, db: Database, t: string, id: Id) {
    exists r | r in Rows(db, t) :: r.id == id && Keyed(ms, t, r)
  }

  ghost predicate Keyed(ms: seq<TableMap>, t: string, r: Rec) {
    forall k | 0 <= k < |ms| && ms[k].target == t :: Keys(ms[k], r.row) != {}
  }

  /** Required foreign keys of the row refer to rows that have a usable key. */
  ghost predicate HasParents(ms: seq<TableMap>, db: Database, m: TableMap, row: Row) {
    forall f | 0 <= f < |m.foreignKeys| && m.foreignKeys[f].onMissing == Skip ::
      && Cell(row, m.foreignKeys[f].column).Ref?
      && IsKeyed(ms, db, m.foreignKeys[f].references, Cell(row, m.foreignKeys[f].column).id)
  }

  ghost predicate OrdinaryTable(ms: seq<TableMap>, db: Database, m: TableMap) {
    && PlainKeys(m, Rows(db, m.target)) && CanBeNew(m, Rows(db, m.target))
    && forall r | r in Rows(db, m.target) && Keys(m, r.row) != {} :: HasParents(ms, db, m, r.row)
  }

  ghost predicate OrdinaryAt(ms: seq<TableMap>, db: Database, k: nat)
    requires k < |ms|
  {
    if NeededIn(ms, ms[k].target) then OrdinaryTable(ms, db, ms[k]) else CanBeNew(ms[k], [])
  }

  /** Needed tables are ordinary, and the rows of the others can have a usable key. */
  ghost predicate OrdinaryTables(ms: seq<TableMap>, db: Database) {
    forall k | 0 <= k < |ms| :: OrdinaryAt(ms, db, k)
  }

  // ---------------------------------------------------------------- two runs

  /** The same rows of every needed table; the others may hold anything. */
  ghost predicate SameNeeded(ms: seq<TableMap>, a: Database, b: Database) {
    forall t | NeededIn(ms, t) :: multiset(Rows(a, t)) == multiset(Rows(b, t))
  }

  /** The merged rows come back in any order. */
  ghost predicate Reread(a: Database, b: Database) {
    forall t :: multiset(Rows(a, t)) == multiset(Rows(b, t))
  }

  ghost predicate IsRowAt(s: Setup, k: nat, n: nat) {
    k < |s.jobs| && n < |s.jobs[k].rows|
  }

  /** A primary key of this table that no row of it has. */
  ghost predicate NewTo(rows: seq<Rec>, id: Id) {
    id.Stored? && forall r | r in rows :: r.id != id
  }

  /** Every id the database gives is new to its table, and given once in it. */
  ghost predicate NewIds(s: Setup, db: Database) {
    && (forall k: nat, n: nat | IsRowAt(s, k, n) && s.answers(k, n).Assigned? ::
          NewTo(Rows(db, s.jobs[k].m.target), s.answers(k, n).id))
    && (forall k: nat, n: nat, k': nat, n': nat | IsRowAt(s, k, n) && IsRowAt(s, k', n')
          && s.jobs[k].m.target == s.jobs[k'].m.target && s.answers(k, n).Assigned?
          && s.answers(k, n) == s.answers(k', n') :: k == k' && n == n')
  }

  /**
   * Two merges of one list of maps, on any source rows and with any answers: the first on the given
   * needed tables, the second on what the first left.
   */
  ghost predicate RunsTwice(
      ms: seq<TableMap>, db: Database, first: Setup, start: Database, second: Setup, again: Database) {
    && |first.jobs| == |ms| && (forall k | 0 <= k < |ms| :: first.jobs[k].m == ms[k])
    && second.jobs == first.jobs && first.execute && second.execute
    && DistinctPks(first.jobs) && NoFailure(Final(first, start).log)
    && SameNeeded(ms, start, db) && Reread(again, Final(first, start).db)
  }

  /** Two such merges in which the database never gives a primary key that is in use. */
  ghost predicate MergedTwice(
      ms: seq<TableMap>, db: Database, first: Setup, start: Database, second: Setup, again: Database) {
    RunsTwice(ms, db, first, start, second, again) && NewIds(first, start) && NewIds(second, again)
  }

  ghost predicate NeverInsertsTwice(ms: seq<TableMap>, db: Database) {
    forall first, start, second, again ::
      MergedTwice(ms, db, first, start, second, again) ==> !Inserts(Final(second, again).log)
  }

  ghost predicate UniqueParents(ms: seq<TableMap>, db: Database) {
    forall p | 0 <= p < |ms| && NeededIn(ms, ms[p].target) :: UniqueKeys(ms[p], Rows(db, ms[p].target))
  }

  // ---------------------------------------------------------------- unique parents

  lemma UniqueInAnyOrder(m: TableMap, a: seq<Rec>, b: seq<Rec>)
    requires multiset(a) == multiset(b) && UniqueKeys(m, b)
    ensures UniqueKeys(m, a)
  {
    forall x | x in a
      ensures x in b
    {
      assert x in multiset(a) && x in multiset(b);
    }
  }

  lemma RereadIsSameRows(a: Database, b: Database)
    requires Reread(a, b)
    ensures SameRows(b, a)
  {
    forall t, r
      ensures r in Rows(b, t) <==> r in Rows(a, t)
    {
      assert r in Rows(b, t) <==> r in multiset(Rows(b, t));
      assert r in Rows(a, t) <==> r in multiset(Rows(a, t));
    }
  }

  lemma SettledParent(
      ms: seq<TableMap>, db: Database, first: Setup, start: Database, second: Setup, again: Database, t: string)
    requires FamilyOfMaps(ms) && UniqueParents(ms, db) && NeededIn(ms, t)
    requires RunsTwice(ms, db, first, start, second, again)
    ensures Settled(first, start, again, t)
  {
    forall k | 0 <= k < |first.jobs| && first.jobs[k].m.target == t
      ensures OneScheme(first.jobs, first.jobs[k].m) && UniqueKeys(first.jobs[k].m, Rows(start, t))
    {
      assert FamilyMap(ms, k);
      UniqueInAnyOrder(ms[k], Rows(start, t), Rows(db, t));
    }
  }

  /** Unique parent keys suffice whatever the database answers. */
  lemma UniqueParentsSuffice(
      ms: seq<TableMap>, db: Database, first: Setup, start: Database, second: Setup, again: Database)
    requires FamilyOfMaps(ms) && UniqueParents(ms, db) && RunsTwice(ms, db, first, start, second, again)
    ensures !Inserts(Final(second, again).log)
  {
    RereadIsSameRows(again, Final(first, start).db);
    forall t | Needed(first.jobs, t)
      ensures Settled(first, start, again, t)
    {
      var k :| 0 <= k < |first.jobs| && NeededBy(first.jobs[k].m, t);
      assert NeededBy(ms[k], t);
      SettledParent(ms, db, first, start, second, again, t);
    }
    forall k | 0 <= k < |first.jobs|
      ensures StableKeys(first.jobs[k].m)
    {
      assert FamilyMap(ms, k);
    }
    SecondRunInsertsNothing(first, second, start, again);
  }

  // ---------------------------------------------------------------- a source row that copies a stored row

  /** Two rows with a key of scheme `i` in common. */
  ghost predicate Twins(m: TableMap, a: Rec, b: Rec, i: nat) {
    i < |m.naturalKeys| && KeyAt(m, a.row, i).Some? && KeyAt(m, a.row, i) == KeyAt(m, b.row, i) && a.id != b.id
  }

  ghost function RequiredColumns(m: TableMap): set<string> {
    set f | 0 <= f < |m.foreignKeys| && m.foreignKeys[f].onMissing == Skip :: m.foreignKeys[f].column
  }

  /** The source row that holds what `row` holds in these columns, names its parents, and holds nothing else. */
  ghost function Copy(m: TableMap, row: Row, columns: seq<string>): Cells {
    map c | c in columns :: if c in RequiredColumns(m) then Some(ROW_KEY) else AsText(Cell(row, c))
  }

  /** The key columns of `copy` are those of natural key `i` of `row`. */
  ghost predicate Copies(m: TableMap, copy: Row, row: Row, i: nat) {
    && i < |m.naturalKeys|
    && forall c | KeyColumn(m, c) :: Cell(copy, c) == if c in m.naturalKeys[i] then Cell(row, c) else Null
  }

  ghost predicate NamesParents(m: TableMap, row: Row, known: string -> Id) {
    forall f | 0 <= f < |m.foreignKeys| && m.foreignKeys[f].onMissing == Skip ::
      Cell(row, m.foreignKeys[f].column) == Ref(known(m.foreignKeys[f].references))
  }

  lemma CopyIsProper(m: TableMap, row: Row, i: nat)
    requires ClearKeys(m) && i < |m.naturalKeys|
    ensures Proper(m, Copy(m, row, m.naturalKeys[i]))
  {
    forall f | 0 <= f < |m.foreignKeys| && m.foreignKeys[f].onMissing == Skip
      ensures m.foreignKeys[f].column in m.naturalKeys[i] && m.foreignKeys[f].column in RequiredColumns(m)
    {
      assert InEveryKey(m, m.foreignKeys[f].column);
    }
  }

  lemma CopiedCell(m: TableMap, row: Row, i: nat, known: string -> Id, c: string)
    requires ClearKeys(m) && i < |m.naturalKeys| && NamesParents(m, row, known) && KeyColumn(m, c)
    requires RequiredColumn(m, c) || !Cell(row, c).Ref?
    ensures Cell(RowOf(m, Copy(m, row, m.naturalKeys[i]), known), c)
      == if c in m.naturalKeys[i] then Cell(row, c) else Null
  {
    var cells := Copy(m, row, m.naturalKeys[i]);
    CopyIsProper(m, row, i);
    if RequiredColumn(m, c) {
      var f :| 0 <= f < |m.foreignKeys| && m.foreignKeys[f].onMissing == Skip && m.foreignKeys[f].column == c;
      RowHoldsParent(m, cells, known, f);
      assert InEveryKey(m, c);
    } else {
      forall f | 0 <= f < |m.foreignKeys|
        ensures m.foreignKeys[f].column != c
      {
      }
      RowKeepsOthers(m, cells, known, c);
      assert c !in RequiredColumns(m);
    }
  }

  lemma CopiedRow(m: TableMap, row: Row, i: nat, known: string -> Id)
    requires ClearKeys(m) && i < |m.naturalKeys| && NamesParents(m, row, known)
    requires forall c | KeyColumn(m, c) && !RequiredColumn(m, c) :: !Cell(row, c).Ref?
    ensures Copies(m, RowOf(m, Copy(m, row, m.naturalKeys[i]), known), row, i)
  {
    forall c | KeyColumn(m, c)
      ensures Cell(RowOf(m, Copy(m, row, m.naturalKeys[i]), known), c)
        == if c in m.naturalKeys[i] then Cell(row, c) else Null
    {
      CopiedCell(m, row, i, known, c);
    }
  }

  /** Where the copy has a usable key, the row it copies has it. */
  lemma CopyKeys(m: TableMap, copy: Row, row: Row, i: nat, j: nat)
    requires ParentMap(m) && Copies(m, copy, row, i) && j < |m.naturalKeys| && KeyAt(m, copy, j).Some?
    ensures forall c | c in m.naturalKeys[j] :: c in m.naturalKeys[i]
    ensures KeyAt(m, row, j) == KeyAt(m, copy, j)
  {
    var parts := Parts(m, m.naturalKeys[j], copy);
    forall x | 0 <= x < |m.naturalKeys[j]|
      ensures m.naturalKeys[j][x] in m.naturalKeys[i]
      ensures Normalized(m, m.naturalKeys[j][x], Cell(row, m.naturalKeys[j][x])) == parts[x]
    {
      var c := m.naturalKeys[j][x];
      assert parts[x].Truthy() && KeyColumn(m, c);
    }
    assert Parts(m, m.naturalKeys[j], row) == parts;
  }

  lemma CopyIsUsable(m: TableMap, copy: Row, row: Row, i: nat)
    requires Copies(m, copy, row, i) && KeyAt(m, row, i).Some?
    ensures KeyAt(m, copy, i) == KeyAt(m, row, i)
  {
    forall x | 0 <= x < |m.naturalKeys[i]|
      ensures Cell(copy, m.naturalKeys[i][x]) == Cell(row, m.naturalKeys[i][x])
    {
      assert m.naturalKeys[i][x] in m.naturalKeys[i] && KeyColumn(m, m.naturalKeys[i][x]);
    }
    assert Parts(m, m.naturalKeys[i], copy) == Parts(m, m.naturalKeys[i], row);
  }

  /** Rows that agree on one key agree on every key over its columns. */
  lemma KeysOverColumns(m: TableMap, a: Row, b: Row, i: nat, j: nat)
    requires i < |m.naturalKeys| && j < |m.naturalKeys|
    requires Parts(m, m.naturalKeys[i], a) == Parts(m, m.naturalKeys[i], b)
    requires forall c | c in m.naturalKeys[j] :: c in m.naturalKeys[i]
    ensures KeyAt(m, a, j) == KeyAt(m, b, j)
  {
    var columns := m.naturalKeys[j];
    forall x | 0 <= x < |columns|
      ensures Normalized(m, columns[x], Cell(a, columns[x])) == Normalized(m, columns[x], Cell(b, columns[x]))
    {
      assert columns[x] in columns && columns[x] in m.naturalKeys[i];
      var y :| 0 <= y < |m.naturalKeys[i]| && m.naturalKeys[i][y] == columns[x];
      assert Parts(m, m.naturalKeys[i], a)[y] == Parts(m, m.naturalKeys[i], b)[y];
    }
    assert Parts(m, columns, a) == Parts(m, columns, b);
  }

  /** The copy of a row has a usable key, and every row that shares the copied key has all its keys. */
  lemma CopyHasKeys(m: TableMap, copy: Row, row: Row, twin: Row, i: nat)
    requires ParentMap(m) && Copies(m, copy, row, i) && KeyAt(m, row, i).Some? && KeyAt(m, row, i) == KeyAt(m, twin, i)
    ensures Keys(m, copy) != {} && Keys(m, copy) <= Keys(m, twin)
  {
    CopyIsUsable(m, copy, row, i);
    assert KeyAt(m, copy, i).value in Keys(m, copy);
    forall k | k in Keys(m, copy)
      ensures k in Keys(m, twin)
    {
      var j :| 0 <= j < |m.naturalKeys| && KeyAt(m, copy, j) == Some(k);
      CopyKeys(m, copy, row, i, j);
      KeysOverColumns(m, row, twin, i, j);
    }
  }

  // ---------------------------------------------------------------- what a row matches

  /** The rows with row `x` read first. */
  function Front(rows: seq<Rec>, x: nat): seq<Rec>
    requires x < |rows|
  {
    [rows[x]] + rows[..x] + rows[x + 1..]
  }

  lemma FrontIsReordered(rows: seq<Rec>, x: nat)
    requires x < |rows|
    ensures multiset(Front(rows, x)) == multiset(rows)
  {
    assert rows == rows[..x] + [rows[x]] + rows[x + 1..];
  }

  /** A row whose keys the first row of the table has is a duplicate of it. */
  lemma FirstWins(m: TableMap, rows: seq<Rec>, keys: set<Key>)
    requires rows != [] && keys != {} && keys <= Keys(m, rows[0].row)
    ensures Matches(keys, IndexOf(m, rows)) == {rows[0].id}
  {
    assert rows == [rows[0]] + rows[1..] && [rows[0]][..0] == [];
    assert IndexOf(m, [rows[0]]) == AddKeys(map[], Keys(m, rows[0].row), rows[0].id);
    IndexGrows(m, [rows[0]], rows[1..]);
    OnlyMatch(keys, IndexOf(m, rows), rows[0].id);
  }

  /** In a table with unique keys a row whose keys a stored row has is a duplicate of it. */
  lemma UniqueWins(m: TableMap, rows: seq<Rec>, r: Rec, keys: set<Key>)
    requires UniqueKeys(m, rows) && r in rows && keys != {} && keys <= Keys(m, r.row)
    ensures Matches(keys, IndexOf(m, rows)) == {r.id}
  {
    forall k | k in keys
      ensures k in IndexOf(m, rows) && IndexOf(m, rows)[k] == r.id
    {
      UniqueIndex(m, rows, r, k);
    }
    OnlyMatch(keys, IndexOf(m, rows), r.id);
  }

  /** A new row is a duplicate of itself once it is stored. */
  lemma StoredWins(m: TableMap, rows: seq<Rec>, r: Rec)
    requires Unknown(rows, m, r.row)
    ensures Matches(Keys(m, r.row), IndexOf(m, rows + [r])) == {r.id}
  {
    NoMatchNoKey(Keys(m, r.row), IndexOf(m, rows));
    IndexAfterInsert(m, rows, r);
    OnlyMatch(Keys(m, r.row), IndexOf(m, rows + [r]), r.id);
  }

  /** A row with no key in the table and none of the last row's is new. */
  lemma StillUnknown(m: TableMap, rows: seq<Rec>, r: Rec, row: Row)
    requires Unknown(rows, m, row) && Keys(m, r.row) * Keys(m, row) == {}
    ensures Unknown(rows + [r], m, row)
  {
    NoMatchNoKey(Keys(m, row), IndexOf(m, rows));
    IndexAfterInsert(m, rows, r);
    forall k | k in Keys(m, row)
      ensures k !in IndexOf(m, rows + [r])
    {
      assert k !in Keys(m, r.row) * Keys(m, row);
    }
  }

  ghost function PlaceOf(columns: seq<string>, c: string): (x: nat)
    requires c in columns
    ensures x < |columns| && columns[x] == c
  {
    var x :| 0 <= x < |columns| && columns[x] == c;
    x
  }

  /** Every usable key of a row holds the id of each required parent. */
  lemma KeyHoldsParent(m: TableMap, row: Row, f: nat, k: Key)
    requires ClearKeys(m) && f < |m.foreignKeys| && m.foreignKeys[f].onMissing == Skip
    requires Cell(row, m.foreignKeys[f].column).Ref? && k in Keys(m, row)
    ensures k.scheme < |m.naturalKeys| && m.foreignKeys[f].column in m.naturalKeys[k.scheme]
    ensures var x := PlaceOf(m.naturalKeys[k.scheme], m.foreignKeys[f].column);
      x < |k.parts| && k.parts[x] == Pk(Cell(row, m.foreignKeys[f].column).id)
  {
    var i :| 0 <= i < |m.naturalKeys| && KeyAt(m, row, i) == Some(k);
    assert k == Key(i, Parts(m, m.naturalKeys[i], row));
  }

  /** Rows with different parents share no key. */
  lemma OtherParentOtherKeys(m: TableMap, a: Row, b: Row, f: nat)
    requires ClearKeys(m) && f < |m.foreignKeys| && m.foreignKeys[f].onMissing == Skip
    requires Cell(a, m.foreignKeys[f].column) != Cell(b, m.foreignKeys[f].column)
    requires Cell(a, m.foreignKeys[f].column).Ref? && Cell(b, m.foreignKeys[f].column).Ref?
    ensures Keys(m, a) * Keys(m, b) == {}
  {
    forall k | k in Keys(m, a)
      ensures k !in Keys(m, b)
    {
      KeyHoldsParent(m, a, f, k);
      if k in Keys(m, b) {
        KeyHoldsParent(m, b, f, k);
      }
    }
  }

  // ---------------------------------------------------------------- a row and its ancestors

  /** The first map of its table. */
  ghost predicate Lead(ms: seq<TableMap>, k: nat) {
    k < |ms| && !MergedBefore(ms, k, ms[k].target)
  }

  lemma LeadOf(ms: seq<TableMap>, k: nat, t: string) returns (i: nat)
    requires k <= |ms| && MergedBefore(ms, k, t)
    ensures i < k && Lead(ms, i) && ms[i].target == t
  {
    i :| 0 <= i < k && ms[i].target == t;
    if !Lead(ms, i) {
      i := LeadOf(ms, i, t);
    }
  }

  /** A stored row of some table, and the natural key by which its copy finds it. */
  datatype Link = Link(rec: Rec, scheme: nat)

  type Line = map<string, Link>

  /** The row of map `k` is stored, has its key, and its required parent is on the line. */
  ghost predicate Linked(ms: seq<TableMap>, db: Database, line: Line, k: nat)
    requires k < |ms| && ms[k].target in line
  {
    var m, link := ms[k], line[ms[k].target];
    && link.rec in Rows(db, m.target) && link.scheme < |m.naturalKeys| && KeyAt(m, link.rec.row, link.scheme).Some?
    && forall f | 0 <= f < |m.foreignKeys| && m.foreignKeys[f].onMissing == Skip ::
         && m.foreignKeys[f].references in line
         && Cell(link.rec.row, m.foreignKeys[f].column) == Ref(line[m.foreignKeys[f].references].rec.id)
  }

  /** The tables of the line are needed, and merged by map `p`. */
  ghost predicate Lineage(ms: seq<TableMap>, db: Database, line: Line, p: nat)
    requires p < |ms|
  {
    && (forall t | t in line :: NeededIn(ms, t) && MergedBefore(ms, p + 1, t))
    && forall k {:trigger Lead(ms, k)} | 0 <= k < |ms| && Lead(ms, k) && ms[k].target in line :: Linked(ms, db, line, k)
  }

  lemma {:induction false} LineFrom(ms: seq<TableMap>, db: Database, p: nat, rec: Rec, e: nat) returns (line: Line)
    requires FamilyOfMaps(ms) && OrdinaryTables(ms, db) && Lead(ms, p) && NeededIn(ms, ms[p].target)
    requires rec in Rows(db, ms[p].target) && e < |ms[p].naturalKeys| && KeyAt(ms[p], rec.row, e).Some?
    ensures Lineage(ms, db, line, p) && ms[p].target in line && line[ms[p].target] == Link(rec, e)
    decreases p
  {
    var m := ms[p];
    if f :| 0 <= f < |m.foreignKeys| && m.foreignKeys[f].onMissing == Skip {
      var q, parent, i := ParentLink(ms, db, p, rec, e, f);
      var above := LineFrom(ms, db, q, parent, i);
      line := above[m.target := Link(rec, e)];
      assert FamilyMap(ms, p);
      Extended(ms, db, p, q, rec, e, f, above);
    } else {
      line := map[m.target := Link(rec, e)];
      LineOfOne(ms, db, p, rec, e);
    }
  }

  lemma LineOfOne(ms: seq<TableMap>, db: Database, p: nat, rec: Rec, e: nat)
    requires Lead(ms, p) && NeededIn(ms, ms[p].target)
    requires rec in Rows(db, ms[p].target) && e < |ms[p].naturalKeys| && KeyAt(ms[p], rec.row, e).Some?
    requires forall f | 0 <= f < |ms[p].foreignKeys| :: ms[p].foreignKeys[f].onMissing != Skip
    ensures Lineage(ms, db, map[ms[p].target := Link(rec, e)], p)
  {
    forall k | 0 <= k < |ms| && Lead(ms, k) && ms[k].target == ms[p].target
      ensures k == p
    {
      SameLead(ms, k, p);
    }
    assert MergedBefore(ms, p + 1, ms[p].target);
  }

  lemma SameLead(ms: seq<TableMap>, k: nat, p: nat)
    requires Lead(ms, k) && Lead(ms, p) && ms[k].target == ms[p].target
    ensures k == p
  {
  }

  lemma ParentRow(ms: seq<TableMap>, db: Database, p: nat, rec: Rec, e: nat, f: nat) returns (parent: Rec)
    requires OrdinaryTables(ms, db) && p < |ms| && NeededIn(ms, ms[p].target)
    requires rec in Rows(db, ms[p].target) && e < |ms[p].naturalKeys| && KeyAt(ms[p], rec.row, e).Some?
    requires f < |ms[p].foreignKeys| && ms[p].foreignKeys[f].onMissing == Skip
    ensures var t := ms[p].foreignKeys[f].references;
      && parent in Rows(db, t) && Keyed(ms, t, parent)
      && Cell(rec.row, ms[p].foreignKeys[f].column) == Ref(parent.id)
  {
    var m, t := ms[p], ms[p].foreignKeys[f].references;
    assert OrdinaryAt(ms, db, p);
    assert KeyAt(m, rec.row, e).value in Keys(m, rec.row);
    assert HasParents(ms, db, m, rec.row);
    parent :| parent in Rows(db, t) && parent.id == Cell(rec.row, m.foreignKeys[f].column).id && Keyed(ms, t, parent);
  }

  /** The parent of a row with a usable key, and a usable key of it. */
  lemma ParentLink(ms: seq<TableMap>, db: Database, p: nat, rec: Rec, e: nat, f: nat)
      returns (q: nat, parent: Rec, i: nat)
    requires FamilyOfMaps(ms) && OrdinaryTables(ms, db) && p < |ms| && NeededIn(ms, ms[p].target)
    requires rec in Rows(db, ms[p].target) && e < |ms[p].naturalKeys| && KeyAt(ms[p], rec.row, e).Some?
    requires f < |ms[p].foreignKeys| && ms[p].foreignKeys[f].onMissing == Skip
    ensures q < p && Lead(ms, q) && ms[q].target == ms[p].foreignKeys[f].references && NeededIn(ms, ms[q].target)
    ensures parent in Rows(db, ms[q].target) && Cell(rec.row, ms[p].foreignKeys[f].column) == Ref(parent.id)
    ensures i < |ms[q].naturalKeys| && KeyAt(ms[q], parent.row, i).Some?
  {
    var t := ms[p].foreignKeys[f].references;
    assert FamilyMap(ms, p);
    q := LeadOf(ms, p, t);
    assert NeededBy(ms[p], t);
    parent := ParentRow(ms, db, p, rec, e, f);
    var k :| k in Keys(ms[q], parent.row);
    i := k.scheme;
  }

  lemma LinkKept(ms: seq<TableMap>, db: Database, above: Line, k: nat, t: string, link: Link)
    requires k < |ms| && ms[k].target in above && Linked(ms, db, above, k) && t !in above
    ensures Linked(ms, db, above[t := link], k)
  {
  }

  /** One more row below a line. */
  lemma Extended(ms: seq<TableMap>, db: Database, p: nat, q: nat, rec: Rec, e: nat, f: nat, above: Line)
    requires Lead(ms, p) && ParentMap(ms[p]) && NeededIn(ms, ms[p].target) && q < p && Lineage(ms, db, above, q)
    requires rec in Rows(db, ms[p].target) && e < |ms[p].naturalKeys| && KeyAt(ms[p], rec.row, e).Some?
    requires f < |ms[p].foreignKeys| && ms[p].foreignKeys[f].onMissing == Skip
    requires var t := ms[p].foreignKeys[f].references;
      t in above && Cell(rec.row, ms[p].foreignKeys[f].column) == Ref(above[t].rec.id)
    ensures Lineage(ms, db, above[ms[p].target := Link(rec, e)], p)
  {
    var m, line := ms[p], above[ms[p].target := Link(rec, e)];
    NotAbove(ms, db, p, q, above);
    forall t | t in line
      ensures NeededIn(ms, t) && MergedBefore(ms, p + 1, t)
    {
      if t != m.target {
        var i :| 0 <= i < q + 1 && ms[i].target == t;
      }
    }
    forall k | 0 <= k < |ms| && Lead(ms, k) && ms[k].target in line
      ensures Linked(ms, db, line, k)
    {
      if ms[k].target == m.target {
        SameLead(ms, k, p);
      } else {
        LinkKept(ms, db, above, k, m.target, Link(rec, e));
      }
    }
  }

  lemma NotAbove(ms: seq<TableMap>, db: Database, p: nat, q: nat, above: Line)
    requires Lead(ms, p) && q < p && Lineage(ms, db, above, q)
    ensures ms[p].target !in above
  {
    assert !MergedBefore(ms, q + 1, ms[p].target);
  }

  // ---------------------------------------------------------------- the feud of two twins

  /** No row of any table has this id. */
  ghost predicate NewToAll(ms: seq<TableMap>, db: Database, id: Id) {
    id.Stored? && forall k | 0 <= k < |ms| :: NewTo(Rows(db, ms[k].target), id)
  }

  /** Map `c` is the first whose rows need a parent in table `t`. */
  ghost predicate FirstToNeed(ms: seq<TableMap>, c: nat, t: string) {
    c < |ms| && NeededBy(ms[c], t) && forall k | 0 <= k < c :: !NeededBy(ms[k], t)
  }

  /** The ancestors on the line have no twins. */
  ghost predicate UniqueOnLine(ms: seq<TableMap>, db: Database, p: nat, line: Line)
    requires p < |ms|
  {
    forall k | 0 <= k < p && ms[k].target in line :: UniqueKeys(ms[k], Rows(db, ms[k].target))
  }

  /**
   * Twins `x` and `y` of the table of map `p`, in which map `c` is the first to need a parent; the line leads from `x`
   * to its ancestors, which have no twins; each run has a new id to give.
   */
  datatype Feud = Feud(
    ms: seq<TableMap>, db: Database, p: nat, c: nat, x: nat, y: nat, line: Line, first: Id, second: Id) {
    ghost predicate Valid() {
      && FamilyOfMaps(ms) && OrdinaryTables(ms, db) && Lead(ms, p) && FirstToNeed(ms, c, Table())
      && Lineage(ms, db, line, p) && Placed() && Table() in line
      && line[Table()].rec == Siblings()[x] && Twins(ms[p], Siblings()[x], Siblings()[y], line[Table()].scheme)
      && UniqueOnLine(ms, db, p, line) && NewToAll(ms, db, first) && NewToAll(ms, db, second) && first != second
    }

    predicate Placed() {
      p < |ms| && c < |ms| && x < |Siblings()| && y < |Siblings()|
    }

    function Table(): string
      requires p < |ms|
    {
      ms[p].target
    }

    function Siblings(): seq<Rec>
      requires p < |ms|
    {
      Rows(db, Table())
    }

    /** The maps with a source row: the child's, and the first map of each needed table before it. */
    ghost predicate Active(k: nat) {
      k < |ms| && (k == c || (k < c && Lead(ms, k) && NeededIn(ms, ms[k].target)))
    }

    /** The rows of the line have their own cells; everyone else is new. */
    ghost function Source(k: nat): Cells
      requires OrdinaryTables(ms, db) && k < |ms|
    {
      var m := ms[k];
      if m.target in line && line[m.target].scheme < |m.naturalKeys|
      then Copy(m, line[m.target].rec.row, m.naturalKeys[line[m.target].scheme])
      else NewCells(ms, db, k)
    }

    ghost function Sources(): seq<Option<Cells>>
      requires OrdinaryTables(ms, db)
    {
      seq(|ms|, k requires 0 <= k < |ms| => if Active(k) then Some(Source(k)) else None)
    }

    ghost function FirstAct(): Act
      requires OrdinaryTables(ms, db)
    {
      Act(ms, Sources(), t => if t in line then line[t].rec.id else first, first)
    }

    /** The twin's table is now known by the other twin, and the child's by its new row. */
    ghost function SecondAct(): Act
      requires OrdinaryTables(ms, db) && Placed()
    {
      var table, child, other := Table(), ms[c].target, Siblings()[y].id;
      Act(ms, Sources(),
        t => if t == table then other else if t == child then second else if t in line then line[t].rec.id else first,
        second)
    }

    /** The first twin is read first, and the child's table is empty unless it is needed itself. */
    ghost function Start(): Database
      requires Placed()
    {
      var reread := db[Table() := Front(Siblings(), x)];
      if NeededIn(ms, ms[c].target) then reread else reread[ms[c].target := []]
    }

    /** What the first run leaves, the other twin read first. */
    function Again(merged: Database): Database
      requires Placed()
    {
      merged[Table() := Front(Siblings(), y)]
    }
  }

  /** The rows of a needed table; nothing for any other. */
  ghost function NeededRows(ms: seq<TableMap>, db: Database, t: string): seq<Rec> {
    if NeededIn(ms, t) then Rows(db, t) else []
  }

  ghost function NewCells(ms: seq<TableMap>, db: Database, k: nat): (cells: Cells)
    requires OrdinaryTables(ms, db) && k < |ms|
    ensures IsNew(ms[k], NeededRows(ms, db, ms[k].target), cells)
  {
    assert OrdinaryAt(ms, db, k);
    var cells :| IsNew(ms[k], NeededRows(ms, db, ms[k].target), cells);
    cells
  }

  // ---------------------------------------------------------------- who plays

  lemma NeedsAreNeeded(ms: seq<TableMap>, k: nat, t: string)
    requires k < |ms| && NeededBy(ms[k], t)
    ensures NeededIn(ms, t)
  {
  }

  lemma OtherNeedsOtherTable(ms: seq<TableMap>, k: nat, i: nat, t: string)
    requires k < |ms| && i < |ms| && MapsAgree(ms, k) && NeededBy(ms[k], t) && !NeededBy(ms[i], t)
    ensures ms[i].target != ms[k].target
  {
  }

  /** If the child's table is needed itself, the child is its first map. */
  lemma ChildLeads(w: Feud)
    requires w.Valid() && NeededIn(w.ms, w.ms[w.c].target)
    ensures Lead(w.ms, w.c)
  {
    assert FamilyMap(w.ms, w.c);
    forall i | 0 <= i < w.c
      ensures w.ms[i].target != w.ms[w.c].target
    {
      OtherNeedsOtherTable(w.ms, w.c, i, w.Table());
    }
  }

  lemma ParentIsEarlier(w: Feud)
    requires w.Valid()
    ensures w.p < w.c && w.ms[w.c].target != w.Table() && NeededIn(w.ms, w.Table())
  {
    NeedsAreNeeded(w.ms, w.c, w.Table());
    assert FamilyMap(w.ms, w.c) && MergedBefore(w.ms, w.c, w.Table());
    if w.ms[w.c].target == w.Table() {
      ChildLeads(w);
    }
  }

  lemma ChildIsOffLine(w: Feud)
    requires w.Valid()
    ensures w.ms[w.c].target !in w.line
  {
    ParentIsEarlier(w);
    if w.ms[w.c].target in w.line {
      ChildLeads(w);
    }
  }

  lemma DistinctPlayers(w: Feud, k: nat, k': nat)
    requires w.Valid() && w.Active(k) && w.Active(k') && w.ms[k].target == w.ms[k'].target
    ensures k == k'
  {
    if NeededIn(w.ms, w.ms[w.c].target) {
      ChildLeads(w);
    }
  }

  lemma OtherPlayerOtherTable(w: Feud, k: nat, k': nat)
    requires w.Valid() && w.Active(k) && w.Active(k') && k != k'
    ensures w.ms[k].target != w.ms[k'].target
  {
    if w.ms[k].target == w.ms[k'].target {
      DistinctPlayers(w, k, k');
    }
  }

  /** The parents of a player have a player. */
  lemma ParentPlays(w: Feud, k: nat, t: string) returns (q: nat)
    requires w.Valid() && w.Active(k) && NeededBy(w.ms[k], t)
    ensures q < k && w.Active(q) && w.ms[q].target == t && q != w.c
  {
    NeedsAreNeeded(w.ms, k, t);
    assert FamilyMap(w.ms, k) && MergedBefore(w.ms, k, t);
    q := LeadOf(w.ms, k, t);
  }

  /** A player before the child has the same parents in both runs. */
  lemma SameInBoth(w: Feud, k: nat)
    requires w.Valid() && w.Active(k) && k != w.c
    ensures SameParents(w.ms[k], w.FirstAct().known, w.SecondAct().known)
  {
    var m := w.ms[k];
    forall f | 0 <= f < |m.foreignKeys| && m.foreignKeys[f].onMissing == Skip
      ensures m.foreignKeys[f].references != w.Table() && m.foreignKeys[f].references != w.ms[w.c].target
    {
      assert NeededBy(m, m.foreignKeys[f].references);
      var q := ParentPlays(w, k, m.foreignKeys[f].references);
      if m.foreignKeys[f].references == w.ms[w.c].target {
        DistinctPlayers(w, q, w.c);
      }
    }
  }

  // ---------------------------------------------------------------- the rows of both runs

  lemma NewSource(w: Feud, k: nat)
    requires w.Valid() && w.Active(k) && w.ms[k].target !in w.line
    ensures IsNew(w.ms[k], NeededRows(w.ms, w.db, w.ms[k].target), w.Source(k))
  {
  }

  lemma OnLine(w: Feud, k: nat)
    requires w.Valid() && w.Active(k) && w.ms[k].target in w.line
    ensures k != w.c && Lead(w.ms, k) && NeededIn(w.ms, w.ms[k].target) && Linked(w.ms, w.db, w.line, k)
  {
    ChildIsOffLine(w);
  }

  lemma LineIsBefore(w: Feud, k: nat)
    requires w.Valid() && w.Active(k) && w.ms[k].target in w.line
    ensures k <= w.p
  {
    OnLine(w, k);
    var i := LeadOf(w.ms, w.p + 1, w.ms[k].target);
    SameLead(w.ms, k, i);
  }

  lemma LineSource(w: Feud, k: nat)
    requires OrdinaryTables(w.ms, w.db) && k < |w.ms| && w.ms[k].target in w.line
    requires w.line[w.ms[k].target].scheme < |w.ms[k].naturalKeys|
    ensures var link := w.line[w.ms[k].target];
      w.Source(k) == Copy(w.ms[k], link.rec.row, w.ms[k].naturalKeys[link.scheme])
  {
  }

  lemma SourceIsProper(w: Feud, k: nat)
    requires w.Valid() && w.Active(k)
    ensures OneKeyPerColumn(w.ms[k]) && Proper(w.ms[k], w.Source(k))
  {
    assert FamilyMap(w.ms, k);
    if w.ms[k].target in w.line {
      OnLine(w, k);
      LineSource(w, k);
      var link := w.line[w.ms[k].target];
      CopyIsProper(w.ms[k], link.rec.row, link.scheme);
    } else {
      NewSource(w, k);
    }
  }

  /** The row of a table on the line holds the key of the row it copies, in both runs. */
  lemma LineRow(w: Feud, k: nat, known: string -> Id)
    requires w.Valid() && w.Active(k) && w.ms[k].target in w.line
    requires SameParents(w.ms[k], w.FirstAct().known, known)
    ensures ParentMap(w.ms[k]) && Linked(w.ms, w.db, w.line, k)
    ensures var link := w.line[w.ms[k].target];
      Copies(w.ms[k], RowOf(w.ms[k], w.Source(k), known), link.rec.row, link.scheme)
  {
    assert FamilyMap(w.ms, k) && OrdinaryAt(w.ms, w.db, k);
    var m, link := w.ms[k], w.line[w.ms[k].target];
    OnLine(w, k);
    LineSource(w, k);
    assert NamesParents(m, link.rec.row, known);
    CopiedRow(m, link.rec.row, link.scheme, known);
  }

  lemma LineKeys(w: Feud, k: nat, known: string -> Id, twin: Rec)
    requires w.Valid() && w.Active(k) && w.ms[k].target in w.line
    requires SameParents(w.ms[k], w.FirstAct().known, known)
    requires var link := w.line[w.ms[k].target];
      link.scheme < |w.ms[k].naturalKeys|
      && KeyAt(w.ms[k], link.rec.row, link.scheme) == KeyAt(w.ms[k], twin.row, link.scheme)
    ensures var keys := Keys(w.ms[k], RowOf(w.ms[k], w.Source(k), known)); keys != {} && keys <= Keys(w.ms[k], twin.row)
  {
    var m, link := w.ms[k], w.line[w.ms[k].target];
    LineRow(w, k, known);
    CopyHasKeys(m, RowOf(m, w.Source(k), known), link.rec.row, twin.row, link.scheme);
  }

  // ---------------------------------------------------------------- the first run

  lemma TwinsPlay(w: Feud)
    requires w.Valid()
    ensures w.Active(w.p) && w.Active(w.c) && w.p < w.c
  {
    ParentIsEarlier(w);
  }

  lemma StartTable(w: Feud, t: string)
    requires w.Placed() && w.ms[w.c].target != w.Table()
    ensures t == w.Table() ==> Rows(w.Start(), t) == Front(w.Siblings(), w.x)
    ensures t != w.Table() && (t == w.ms[w.c].target || NeededIn(w.ms, t)) ==>
      Rows(w.Start(), t) == NeededRows(w.ms, w.db, t)
  {
  }

  lemma StartRows(w: Feud, k: nat)
    requires w.Valid() && w.Active(k) && k != w.p
    ensures Rows(w.Start(), w.ms[k].target) == NeededRows(w.ms, w.db, w.ms[k].target)
  {
    ParentIsEarlier(w);
    TwinsPlay(w);
    OtherPlayerOtherTable(w, k, w.p);
    StartTable(w, w.ms[k].target);
  }

  /** The act is one of the two runs of the feud. */
  ghost predicate RunOf(w: Feud, a: Act) {
    w.Valid() && a.ms == w.ms && a.cells == w.Sources()
  }

  lemma Players(w: Feud, a: Act, k: nat)
    requires OrdinaryTables(w.ms, w.db) && a.ms == w.ms && a.cells == w.Sources()
    ensures a.Plays(k) <==> w.Active(k)
    ensures w.Active(k) ==> a.cells[k].value == w.Source(k) && a.RowFor(k) == RowOf(w.ms[k], w.Source(k), a.known)
  {
  }

  lemma PlayersHaveParents(w: Feud, a: Act, k: nat)
    requires RunOf(w, a) && w.Active(k)
    ensures a.ParentsPlay(k)
  {
    var m := w.ms[k];
    forall f | 0 <= f < |m.foreignKeys| && m.foreignKeys[f].onMissing == Skip
      ensures a.PlaysBefore(k, m.foreignKeys[f].references)
    {
      assert NeededBy(m, m.foreignKeys[f].references);
      var q := ParentPlays(w, k, m.foreignKeys[f].references);
      Players(w, a, q);
    }
  }

  ghost predicate TakenAs(w: Feud, a: Act, start: Database, k: nat)
    requires RunOf(w, a) && w.Active(k)
  {
    var m := w.ms[k];
    Takes(m, Rows(start, m.target), RowOf(m, w.Source(k), a.known), a.known(m.target), a.given)
  }

  lemma RunStagedAt(w: Feud, a: Act, start: Database, k: nat)
    requires RunOf(w, a) && w.Active(k) && TakenAs(w, a, start, k)
    ensures a.Plays(k) && a.StagedAt(start, k)
  {
    Players(w, a, k);
    SourceIsProper(w, k);
    PlayersHaveParents(w, a, k);
  }

  lemma RunStaged(w: Feud, a: Act, start: Database)
    requires RunOf(w, a) && forall k: nat | w.Active(k) :: TakenAs(w, a, start, k)
    ensures a.Staged(start)
  {
    forall k: nat, k': nat | k < k' && a.Plays(k) && a.Plays(k')
      ensures a.ms[k].target != a.ms[k'].target
    {
      Players(w, a, k);
      Players(w, a, k');
      OtherPlayerOtherTable(w, k, k');
    }
    forall k: nat | a.Plays(k)
      ensures a.StagedAt(start, k)
    {
      Players(w, a, k);
      RunStagedAt(w, a, start, k);
    }
  }

  // ---------------------------------------------------------------- the first run

  ghost predicate Finds(m: TableMap, rows: seq<Rec>, row: Row, id: Id) {
    Keys(m, row) != {} && Matches(Keys(m, row), IndexOf(m, rows)) == {id}
  }

  lemma LineTaken(w: Feud, k: nat, known: string -> Id)
    requires w.Valid() && w.Active(k) && w.ms[k].target in w.line && k != w.p
    requires SameParents(w.ms[k], w.FirstAct().known, known)
    ensures var m := w.ms[k];
      Finds(m, Rows(w.db, m.target), RowOf(m, w.Source(k), known), w.line[m.target].rec.id)
  {
    var m, link := w.ms[k], w.line[w.ms[k].target];
    OnLine(w, k);
    LineIsBefore(w, k);
    LineKeys(w, k, known, link.rec);
    UniqueWins(m, Rows(w.db, m.target), link.rec, Keys(m, RowOf(m, w.Source(k), known)));
  }

  /** The twins' source row is the twin that is read first. */
  lemma TwinTaken(w: Feud, z: nat, known: string -> Id)
    requires w.Valid() && (z == w.x || z == w.y) && SameParents(w.ms[w.p], w.FirstAct().known, known)
    ensures var m := w.ms[w.p];
      Finds(m, Front(w.Siblings(), z), RowOf(m, w.Source(w.p), known), w.Siblings()[z].id)
  {
    TwinsPlay(w);
    LineKeys(w, w.p, known, w.Siblings()[z]);
    FirstWins(w.ms[w.p], Front(w.Siblings(), z), Keys(w.ms[w.p], RowOf(w.ms[w.p], w.Source(w.p), known)));
  }

  lemma NewRow(w: Feud, k: nat, known: string -> Id)
    requires w.Valid() && w.Active(k) && w.ms[k].target !in w.line
    ensures Unknown(NeededRows(w.ms, w.db, w.ms[k].target), w.ms[k], RowOf(w.ms[k], w.Source(k), known))
  {
    NewSource(w, k);
  }

  /** A player on the line finds the row it copies. */
  lemma FirstFinds(w: Feud, k: nat)
    requires w.Valid() && w.Active(k) && w.ms[k].target in w.line
    ensures var m := w.ms[k];
      Finds(m, Rows(w.Start(), m.target), RowOf(m, w.Source(k), w.FirstAct().known), w.line[m.target].rec.id)
  {
    if k == w.p {
      ParentIsEarlier(w);
      StartTable(w, w.Table());
      TwinTaken(w, w.x, w.FirstAct().known);
    } else {
      StartRows(w, k);
      OnLine(w, k);
      LineTaken(w, k, w.FirstAct().known);
    }
  }

  /** Any other player is new. */
  lemma FirstIsUnknown(w: Feud, k: nat)
    requires w.Valid() && w.Active(k) && w.ms[k].target !in w.line
    ensures Rows(w.Start(), w.ms[k].target) == NeededRows(w.ms, w.db, w.ms[k].target)
    ensures var m := w.ms[k];
      Unknown(Rows(w.Start(), m.target), m, RowOf(m, w.Source(k), w.FirstAct().known))
  {
    StartRows(w, k);
    NewRow(w, k, w.FirstAct().known);
  }

  lemma FirstTaken(w: Feud, k: nat)
    requires w.Valid() && w.Active(k)
    ensures TakenAs(w, w.FirstAct(), w.Start(), k)
  {
    if w.ms[k].target in w.line {
      FirstFinds(w, k);
    } else {
      FirstIsUnknown(w, k);
    }
  }

  lemma FirstStaged(w: Feud)
    requires w.Valid()
    ensures w.FirstAct().Staged(w.Start())
  {
    forall k: nat | w.Active(k)
      ensures TakenAs(w, w.FirstAct(), w.Start(), k)
    {
      FirstTaken(w, k);
    }
    RunStaged(w, w.FirstAct(), w.Start());
  }

  ghost function Merged(w: Feud): State
    requires OrdinaryTables(w.ms, w.db) && w.Placed()
  {
    Final(w.FirstAct().Plan(), w.Start())
  }

  /** The row of a player off the line, as the first run inserts it. */
  ghost function Added(w: Feud, k: nat): Rec
    requires w.Valid() && w.Active(k)
  {
    Rec(w.first, RowOf(w.ms[k], w.Source(k), w.FirstAct().known))
  }

  /** What the first run has left in the table of a player. */
  ghost predicate LeftBy(w: Feud, merged: Database, k: nat)
    requires w.Valid() && w.Active(k)
  {
    var t := w.ms[k].target;
    && (t in w.line ==> Rows(merged, t) == Rows(w.Start(), t))
    && (t !in w.line ==> Rows(merged, t) == NeededRows(w.ms, w.db, t) + [Added(w, k)])
  }

  lemma AddsNothing(a: Act, db: Database, k: nat, id: Id)
    requires a.Plays(k) && Finds(a.ms[k], Rows(db, a.ms[k].target), a.RowFor(k), id)
    ensures a.Add(db, k) == []
  {
  }

  lemma AddsItself(a: Act, db: Database, k: nat)
    requires a.Plays(k) && Unknown(Rows(db, a.ms[k].target), a.ms[k], a.RowFor(k))
    ensures a.Add(db, k) == [Rec(a.given, a.RowFor(k))]
  {
  }

  lemma FirstLeaves(w: Feud, k: nat)
    requires w.Valid() && w.Active(k) && w.FirstAct().StoredUpTo(w.Start(), |w.ms|, Merged(w))
    ensures LeftBy(w, Merged(w).db, k)
  {
    Players(w, w.FirstAct(), k);
    if w.ms[k].target in w.line {
      FirstFinds(w, k);
      AddsNothing(w.FirstAct(), w.Start(), k, w.line[w.ms[k].target].rec.id);
    } else {
      FirstIsUnknown(w, k);
      AddsItself(w.FirstAct(), w.Start(), k);
    }
  }

  lemma FirstRun(w: Feud)
    requires w.Valid()
    ensures NoFailure(Merged(w).log) && forall k: nat | w.Active(k) :: LeftBy(w, Merged(w).db, k)
  {
    FirstStaged(w);
    ActEnds(w.FirstAct(), w.Start());
    forall k: nat | w.Active(k)
      ensures LeftBy(w, Merged(w).db, k)
    {
      FirstLeaves(w, k);
    }
  }

  // ---------------------------------------------------------------- the second run

  lemma AgainTable(w: Feud, merged: Database, t: string)
    requires w.Placed()
    ensures Rows(w.Again(merged), t) == if t == w.Table() then Front(w.Siblings(), w.y) else Rows(merged, t)
  {
  }

  lemma AgainRows(w: Feud, merged: Database, k: nat)
    requires w.Valid() && w.Active(k) && k != w.p
    ensures Rows(w.Again(merged), w.ms[k].target) == Rows(merged, w.ms[k].target)
  {
    TwinsPlay(w);
    OtherPlayerOtherTable(w, k, w.p);
    AgainTable(w, merged, w.ms[k].target);
  }

  /** The child's row, once under each twin. */
  lemma ChildrenDiffer(w: Feud)
    requires w.Valid()
    ensures var m := w.ms[w.c];
      Keys(m, RowOf(m, w.Source(w.c), w.FirstAct().known)) * Keys(m, RowOf(m, w.Source(w.c), w.SecondAct().known)) == {}
  {
    assert FamilyMap(w.ms, w.c);
    var m := w.ms[w.c];
    TwinsPlay(w);
    SourceIsProper(w, w.c);
    var f :| 0 <= f < |m.foreignKeys| && m.foreignKeys[f].onMissing == Skip && m.foreignKeys[f].references == w.Table();
    RowHoldsParent(m, w.Source(w.c), w.FirstAct().known, f);
    RowHoldsParent(m, w.Source(w.c), w.SecondAct().known, f);
    OtherParentOtherKeys(m, RowOf(m, w.Source(w.c), w.FirstAct().known),
      RowOf(m, w.Source(w.c), w.SecondAct().known), f);
  }

  lemma ChildIsNewAgain(w: Feud, merged: Database)
    requires w.Valid() && w.Active(w.c) && LeftBy(w, merged, w.c)
    ensures var m := w.ms[w.c];
      Unknown(Rows(w.Again(merged), m.target), m, RowOf(m, w.Source(w.c), w.SecondAct().known))
  {
    var m := w.ms[w.c];
    TwinsPlay(w);
    ChildIsOffLine(w);
    AgainRows(w, merged, w.c);
    NewRow(w, w.c, w.SecondAct().known);
    ChildrenDiffer(w);
    StillUnknown(m, NeededRows(w.ms, w.db, m.target), Added(w, w.c), RowOf(m, w.Source(w.c), w.SecondAct().known));
  }

  /** A row that was new in the first run is found in the second. */
  lemma OtherTakenAgain(w: Feud, merged: Database, k: nat)
    requires w.Valid() && w.Active(k) && k != w.c && k != w.p && w.ms[k].target !in w.line && LeftBy(w, merged, k)
    ensures var m := w.ms[k];
      Finds(m, Rows(w.Again(merged), m.target), RowOf(m, w.Source(k), w.SecondAct().known), w.first)
  {
    var m := w.ms[k];
    AgainRows(w, merged, k);
    SourceIsProper(w, k);
    SameInBoth(w, k);
    RowOfSame(m, w.Source(k), w.FirstAct().known, w.SecondAct().known);
    NewRow(w, k, w.FirstAct().known);
    StoredWins(m, NeededRows(w.ms, w.db, m.target), Added(w, k));
  }

  lemma LineTakenAgain(w: Feud, merged: Database, k: nat)
    requires w.Valid() && w.Active(k) && k != w.p && w.ms[k].target in w.line && LeftBy(w, merged, k)
    ensures var m := w.ms[k];
      Finds(m, Rows(w.Again(merged), m.target), RowOf(m, w.Source(k), w.SecondAct().known), w.line[m.target].rec.id)
  {
    AgainRows(w, merged, k);
    StartRows(w, k);
    OnLine(w, k);
    SameInBoth(w, k);
    LineTaken(w, k, w.SecondAct().known);
  }

  lemma TwinTakenAgain(w: Feud, merged: Database)
    requires w.Valid()
    ensures var m := w.ms[w.p];
      Finds(m, Rows(w.Again(merged), m.target), RowOf(m, w.Source(w.p), w.SecondAct().known), w.Siblings()[w.y].id)
  {
    AgainTable(w, merged, w.Table());
    TwinsPlay(w);
    SameInBoth(w, w.p);
    TwinTaken(w, w.y, w.SecondAct().known);
  }

  lemma KnownAgain(w: Feud, k: nat)
    requires w.Valid() && w.Active(k)
    ensures w.SecondAct().known(w.ms[k].target)
      == if k == w.p then w.Siblings()[w.y].id
         else if k == w.c then w.second
         else if w.ms[k].target in w.line then w.line[w.ms[k].target].rec.id else w.first
  {
    TwinsPlay(w);
    if k != w.p {
      OtherPlayerOtherTable(w, k, w.p);
    }
    if k != w.c {
      OtherPlayerOtherTable(w, k, w.c);
    }
  }

  lemma SecondTaken(w: Feud, merged: Database, k: nat)
    requires w.Valid() && w.Active(k) && LeftBy(w, merged, k)
    ensures TakenAs(w, w.SecondAct(), w.Again(merged), k)
  {
    KnownAgain(w, k);
    if k == w.c {
      TwinsPlay(w);
      ChildIsNewAgain(w, merged);
    } else if k == w.p {
      TwinTakenAgain(w, merged);
    } else if w.ms[k].target in w.line {
      LineTakenAgain(w, merged, k);
    } else {
      OtherTakenAgain(w, merged, k);
    }
  }

  lemma SecondRun(w: Feud, merged: Database)
    requires w.Valid() && forall k: nat | w.Active(k) :: LeftBy(w, merged, k)
    ensures Inserts(Final(w.SecondAct().Plan(), w.Again(merged)).log)
  {
    forall k: nat | w.Active(k)
      ensures TakenAs(w, w.SecondAct(), w.Again(merged), k)
    {
      SecondTaken(w, merged, k);
    }
    RunStaged(w, w.SecondAct(), w.Again(merged));
    ActEnds(w.SecondAct(), w.Again(merged));
    ChildIsAdded(w, merged);
  }

  lemma ChildIsAdded(w: Feud, merged: Database)
    requires w.Valid() && w.Active(w.c) && LeftBy(w, merged, w.c)
    ensures w.SecondAct().Plays(w.c) && w.SecondAct().Add(w.Again(merged), w.c) != []
  {
    Players(w, w.SecondAct(), w.c);
    ChildIsNewAgain(w, merged);
  }

  // ---------------------------------------------------------------- the two runs are a second merge

  lemma StartIsReordered(w: Feud)
    requires w.Valid()
    ensures SameNeeded(w.ms, w.Start(), w.db)
  {
    ParentIsEarlier(w);
    FrontIsReordered(w.Siblings(), w.x);
    forall t | NeededIn(w.ms, t)
      ensures multiset(Rows(w.Start(), t)) == multiset(Rows(w.db, t))
    {
      StartTable(w, t);
    }
  }

  lemma AgainIsReordered(w: Feud, merged: Database)
    requires w.Placed() && Rows(merged, w.Table()) == Front(w.Siblings(), w.x)
    ensures Reread(w.Again(merged), merged)
  {
    FrontIsReordered(w.Siblings(), w.x);
    FrontIsReordered(w.Siblings(), w.y);
  }

  lemma TwinsTable(w: Feud, merged: Database)
    requires w.Valid() && forall k: nat | w.Active(k) :: LeftBy(w, merged, k)
    ensures Rows(merged, w.Table()) == Front(w.Siblings(), w.x)
  {
    TwinsPlay(w);
    ParentIsEarlier(w);
    StartTable(w, w.Table());
  }

  lemma PlansRunTwice(w: Feud)
    requires OrdinaryTables(w.ms, w.db) && w.Placed()
    requires DistinctPks(w.FirstAct().Jobs()) && NoFailure(Merged(w).log)
    requires SameNeeded(w.ms, w.Start(), w.db) && Reread(w.Again(Merged(w).db), Merged(w).db)
    ensures RunsTwice(w.ms, w.db, w.FirstAct().Plan(), w.Start(), w.SecondAct().Plan(), w.Again(Merged(w).db))
  {
    assert w.FirstAct().Jobs() == w.SecondAct().Jobs();
  }

  lemma FeudRunsTwice(w: Feud)
    requires w.Valid()
    ensures RunsTwice(w.ms, w.db, w.FirstAct().Plan(), w.Start(), w.SecondAct().Plan(), w.Again(Merged(w).db))
  {
    FirstRun(w);
    StartIsReordered(w);
    TwinsTable(w, Merged(w).db);
    AgainIsReordered(w, Merged(w).db);
    FirstStaged(w);
    OneRowPerTable(w.FirstAct(), w.Start());
    PlansRunTwice(w);
  }

  lemma FrontNew(rows: seq<Rec>, x: nat, id: Id)
    requires x < |rows| && NewTo(rows, id)
    ensures NewTo(Front(rows, x), id)
  {
    forall r | r in Front(rows, x)
      ensures r in rows
    {
    }
  }

  /** In a run of the feud each table has one row, so an id that is new to every table is given once in each. */
  lemma RunGivesNew(w: Feud, a: Act, db: Database)
    requires RunOf(w, a) && forall k: nat | w.Active(k) :: NewTo(Rows(db, w.ms[k].target), a.given)
    ensures NewIds(a.Plan(), db)
  {
    var s := a.Plan();
    forall k: nat, n: nat | IsRowAt(s, k, n)
      ensures n == 0 && w.Active(k) && NewTo(Rows(db, s.jobs[k].m.target), a.given)
    {
      Players(w, a, k);
    }
    forall k: nat, n: nat, k': nat, n': nat | IsRowAt(s, k, n) && IsRowAt(s, k', n')
      && s.jobs[k].m.target == s.jobs[k'].m.target
      ensures k == k' && n == n'
    {
      DistinctPlayers(w, k, k');
    }
  }

  lemma NewInStart(w: Feud, k: nat, id: Id)
    requires w.Valid() && w.Active(k) && NewToAll(w.ms, w.db, id)
    ensures NewTo(Rows(w.Start(), w.ms[k].target), id)
  {
    assert NewTo(Rows(w.db, w.ms[k].target), id);
    if k == w.p {
      ParentIsEarlier(w);
      StartTable(w, w.Table());
      FrontNew(w.Siblings(), w.x, id);
    } else {
      StartRows(w, k);
    }
  }

  lemma NewWithAdded(rows: seq<Rec>, r: Rec, id: Id)
    requires NewTo(rows, id) && r.id != id
    ensures NewTo(rows + [r], id)
  {
  }

  lemma NewInMerged(w: Feud, merged: Database, k: nat)
    requires w.Valid() && w.Active(k) && k != w.p && LeftBy(w, merged, k)
    ensures NewTo(Rows(merged, w.ms[k].target), w.second)
  {
    NewInStart(w, k, w.second);
    if w.ms[k].target !in w.line {
      StartRows(w, k);
      NewWithAdded(NeededRows(w.ms, w.db, w.ms[k].target), Added(w, k), w.second);
    }
  }

  lemma NewInAgain(w: Feud, merged: Database, k: nat)
    requires w.Valid() && w.Active(k) && LeftBy(w, merged, k)
    ensures NewTo(Rows(w.Again(merged), w.ms[k].target), w.second)
  {
    if k == w.p {
      AgainTable(w, merged, w.Table());
      FrontNew(w.Siblings(), w.y, w.second);
    } else {
      AgainRows(w, merged, k);
      NewInMerged(w, merged, k);
    }
  }

  lemma FeudGivesNew(w: Feud, merged: Database)
    requires w.Valid() && forall k: nat | w.Active(k) :: LeftBy(w, merged, k)
    ensures NewIds(w.FirstAct().Plan(), w.Start()) && NewIds(w.SecondAct().Plan(), w.Again(merged))
  {
    forall k: nat | w.Active(k)
      ensures NewTo(Rows(w.Start(), w.ms[k].target), w.first)
      ensures NewTo(Rows(w.Again(merged), w.ms[k].target), w.second)
    {
      NewInStart(w, k, w.first);
      NewInAgain(w, merged, k);
    }
    RunGivesNew(w, w.FirstAct(), w.Start());
    RunGivesNew(w, w.SecondAct(), w.Again(merged));
  }

  // ---------------------------------------------------------------- twins make a feud

  /** A number above every stored id of these rows. */
  function Above(rows: seq<Rec>): (n: nat)
    ensures forall r | r in rows && r.id.Stored? :: r.id.n < n
  {
    if rows == [] then 0
    else
      var so, last := Above(rows[..|rows| - 1]), rows[|rows| - 1];
      assert forall r | r in rows :: r in rows[..|rows| - 1] || r == last;
      if last.id.Stored? && last.id.n >= so then last.id.n + 1 else so
  }

  function AboveAll(ms: seq<TableMap>, db: Database): (n: nat)
    ensures forall m, r | m in ms && r in Rows(db, m.target) && r.id.Stored? :: r.id.n < n
  {
    if ms == [] then 0
    else
      var so, last := AboveAll(ms[..|ms| - 1], db), Above(Rows(db, ms[|ms| - 1].target));
      assert forall m | m in ms :: m in ms[..|ms| - 1] || m == ms[|ms| - 1];
      if last >= so then last else so
  }

  lemma AboveIsNew(ms: seq<TableMap>, db: Database, n: nat)
    requires n >= AboveAll(ms, db)
    ensures NewToAll(ms, db, Stored(n))
  {
    forall k, r | 0 <= k < |ms| && r in Rows(db, ms[k].target)
      ensures r.id != Stored(n)
    {
      assert ms[k] in ms;
    }
  }

  /** Some row of the table of map `k` is needed, and two rows of it share a key. */
  ghost predicate HasTwins(ms: seq<TableMap>, db: Database, k: nat)
    requires k < |ms|
  {
    NeededIn(ms, ms[k].target) && !UniqueKeys(ms[k], Rows(db, ms[k].target))
  }

  lemma {:induction false} FirstTwins(ms: seq<TableMap>, db: Database, n: nat) returns (p: nat)
    requires n < |ms| && HasTwins(ms, db, n)
    ensures p <= n && HasTwins(ms, db, p) && forall k | 0 <= k < p :: !HasTwins(ms, db, k)
  {
    if k: nat :| k < n && HasTwins(ms, db, k) {
      p := FirstTwins(ms, db, k);
    } else {
      p := n;
    }
  }

  lemma {:induction false} FirstNeed(ms: seq<TableMap>, n: nat, t: string) returns (c: nat)
    requires n < |ms| && NeededBy(ms[n], t)
    ensures FirstToNeed(ms, c, t)
  {
    if k: nat :| k < n && NeededBy(ms[k], t) {
      c := FirstNeed(ms, k, t);
    } else {
      c := n;
    }
  }

  /** The first map with twins is the first map of its table. */
  lemma FirstTwinsLead(ms: seq<TableMap>, db: Database, p: nat)
    requires FamilyOfMaps(ms) && p < |ms| && HasTwins(ms, db, p) && forall k | 0 <= k < p :: !HasTwins(ms, db, k)
    ensures Lead(ms, p)
  {
    forall i | 0 <= i < p
      ensures ms[i].target != ms[p].target
    {
      assert FamilyMap(ms, p) && !HasTwins(ms, db, i);
      if ms[i].target == ms[p].target {
        UniqueInEither(ms[i], ms[p], Rows(db, ms[p].target));
      }
    }
  }

  lemma UniqueInEither(m: TableMap, m': TableMap, rows: seq<Rec>)
    requires SameScheme(m, m')
    ensures UniqueKeys(m, rows) == UniqueKeys(m', rows)
  {
    forall r | r in rows
      ensures Keys(m, r.row) == Keys(m', r.row)
    {
      KeysOfScheme(m, m', r.row);
    }
  }

  lemma NotUnique(m: TableMap, rows: seq<Rec>) returns (x: nat, y: nat, i: nat)
    requires !UniqueKeys(m, rows)
    ensures x < |rows| && y < |rows| && Twins(m, rows[x], rows[y], i)
  {
    var a, b :| a in rows && b in rows && Keys(m, a.row) * Keys(m, b.row) != {} && a.id != b.id;
    var k :| k in Keys(m, a.row) && k in Keys(m, b.row);
    i := k.scheme;
    assert Twins(m, a, b, i);
    x :| 0 <= x < |rows| && rows[x] == a;
    y :| 0 <= y < |rows| && rows[y] == b;
  }

  /** Two rows of the table share a key, and the line of the first. */
  lemma TwinsAndLine(ms: seq<TableMap>, db: Database, p: nat) returns (x: nat, y: nat, line: Line)
    requires FamilyOfMaps(ms) && OrdinaryTables(ms, db) && Lead(ms, p) && HasTwins(ms, db, p)
    ensures Lineage(ms, db, line, p) && ms[p].target in line
    ensures var rows := Rows(db, ms[p].target);
      && x < |rows| && y < |rows| && line[ms[p].target].rec == rows[x]
      && Twins(ms[p], rows[x], rows[y], line[ms[p].target].scheme)
  {
    var e;
    x, y, e := NotUnique(ms[p], Rows(db, ms[p].target));
    line := LineFrom(ms, db, p, Rows(db, ms[p].target)[x], e);
  }

  lemma ChildOf(ms: seq<TableMap>, p: nat) returns (c: nat)
    requires p < |ms| && NeededIn(ms, ms[p].target)
    ensures FirstToNeed(ms, c, ms[p].target)
  {
    var k :| 0 <= k < |ms| && NeededBy(ms[k], ms[p].target);
    c := FirstNeed(ms, k, ms[p].target);
  }

  lemma TwinsMakeAFeud(ms: seq<TableMap>, db: Database, n: nat) returns (w: Feud)
    requires FamilyOfMaps(ms) && OrdinaryTables(ms, db) && n < |ms| && HasTwins(ms, db, n)
    ensures w.Valid() && w.ms == ms && w.db == db
  {
    var p := FirstTwins(ms, db, n);
    FirstTwinsLead(ms, db, p);
    var c := ChildOf(ms, p);
    var x, y, line := TwinsAndLine(ms, db, p);
    LineIsUnique(ms, db, p, line);
    w := FeudOf(ms, db, p, c, x, y, line);
  }

  lemma FeudOf(ms: seq<TableMap>, db: Database, p: nat, c: nat, x: nat, y: nat, line: Line) returns (w: Feud)
    requires FamilyOfMaps(ms) && OrdinaryTables(ms, db) && Lead(ms, p) && FirstToNeed(ms, c, ms[p].target)
    requires Lineage(ms, db, line, p) && ms[p].target in line && UniqueOnLine(ms, db, p, line)
    requires var rows := Rows(db, ms[p].target);
      && x < |rows| && y < |rows| && line[ms[p].target].rec == rows[x]
      && Twins(ms[p], rows[x], rows[y], line[ms[p].target].scheme)
    ensures w.Valid() && w.ms == ms && w.db == db
  {
    var first, second := TwoNewIds(ms, db);
    w := Feud(ms, db, p, c, x, y, line, first, second);
    assert w.Table() == ms[p].target && w.Siblings() == Rows(db, ms[p].target) && w.Placed();
  }

  lemma TwoNewIds(ms: seq<TableMap>, db: Database) returns (first: Id, second: Id)
    ensures NewToAll(ms, db, first) && NewToAll(ms, db, second) && first != second
  {
    var above := AboveAll(ms, db);
    AboveIsNew(ms, db, above);
    AboveIsNew(ms, db, above + 1);
    first, second := Stored(above), Stored(above + 1);
  }

  lemma LineIsUnique(ms: seq<TableMap>, db: Database, p: nat, line: Line)
    requires p < |ms| && Lineage(ms, db, line, p) && forall k | 0 <= k < p :: !HasTwins(ms, db, k)
    ensures UniqueOnLine(ms, db, p, line)
  {
    forall k | 0 <= k < p && ms[k].target in line
      ensures UniqueKeys(ms[k], Rows(db, ms[k].target))
    {
      assert !HasTwins(ms, db, k);
    }
  }

  /** Two merges that show the twins' feud. */
  lemma FeudInsertsTwice(w: Feud)
    requires w.Valid()
    ensures !NeverInsertsTwice(w.ms, w.db)
  {
    var again := w.Again(Merged(w).db);
    FirstRun(w);
    FeudRunsTwice(w);
    FeudGivesNew(w, Merged(w).db);
    SecondRun(w, Merged(w).db);
    assert MergedTwice(w.ms, w.db, w.FirstAct().Plan(), w.Start(), w.SecondAct().Plan(), again);
  }

  /**
   * Whatever the source rows are, whatever the tables that nobody needs hold, in whatever order the two runs read the
   * tables and whatever new ids the database gives, no second run inserts anything, exactly when no two rows of a
   * needed table share a natural key.
   */
  lemma SecondRunNeverInsertsExactly(ms: seq<TableMap>, db: Database)
    requires FamilyOfMaps(ms) && OrdinaryTables(ms, db)
    ensures NeverInsertsTwice(ms, db) <==> UniqueParents(ms, db)
  {
    if UniqueParents(ms, db) {
      forall first, start, second, again | MergedTwice(ms, db, first, start, second, again)
        ensures !Inserts(Final(second, again).log)
      {
        UniqueParentsSuffice(ms, db, first, start, second, again);
      }
    } else {
      var n :| 0 <= n < |ms| && NeededIn(ms, ms[n].target) && !UniqueKeys(ms[n], Rows(db, ms[n].target));
      assert HasTwins(ms, db, n);
      var w := TwinsMakeAFeud(ms, db, n);
      FeudInsertsTwice(w);
    }
  }
}
