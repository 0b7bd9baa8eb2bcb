/** The rows, maps and outcomes of migration/merge_engine.py, and what one run computes, as functions. */
module MergeModel {
  import opened Common

  /** A primary key: one stored in the target database, or the name a preview gives to a row it would insert. */
  datatype Id = Stored(n: nat) | Placeholder(table: string, pk: string)

  datatype Value = Null | Text(text: string) | Ref(id: Id)

  type Row = map<string, Value>

  datatype Rec = Rec(id: Id, row: Row)

  /** One normalized component of a natural key. Primary keys normalize to themselves. */
  datatype Part = Word(word: string) | Pk(id: Id) {
    predicate Truthy() {
      Pk? || word != ""
    }
  }

  /** `scheme` is the position of the key among the natural keys of its map. */
  datatype Key = Key(scheme: nat, parts: seq<Part>)

  datatype OnMissing = Skip | SetNull

  datatype ForeignKey = ForeignKey(column: string, references: string, onMissing: OnMissing)

  datatype TableMap = TableMap(
    name: string,
    target: string,
    columns: set<string>,
    naturalKeys: seq<seq<string>>,
    normalize: (string, Option<string>) -> string,
    foreignKeys: seq<ForeignKey>)

  /** A source row as the column builders and defaults of its map leave it: foreign keys still hold old keys. */
  datatype Old = Old(pk: string, cells: map<string, Option<string>>)

  /** A map together with the rows its source query yields, in order. */
  datatype Job = Job(m: TableMap, rows: seq<Old>)

  /** What the target database answers to an INSERT: the new primary key, or an error. */
  datatype Answer = Assigned(id: Id) | Rejected

  datatype Outcome =
    | UnresolvedFk
    | NoNaturalKey
    | Ambiguous
    | Duplicate(id: Id, review: bool)
    | InsertFailed
    | Missing(id: Id)
    | Inserted(id: Id)

  /** One line of the log: `job` is the position of the map in the list, `keys` the usable natural keys. */
  datatype Entry = Entry(job: nat, table: string, pk: string, outcome: Outcome, keys: set<Key>)

  type Database = map<string, seq<Rec>>

  type IdMaps = map<string, map<string, Id>>

  type Index = map<Key, Id>

  datatype State = State(db: Database, idMaps: IdMaps, index: Index, log: seq<Entry>)

  datatype Setup = Setup(jobs: seq<Job>, execute: bool, answers: (nat, nat) -> Answer)

  // ---------------------------------------------------------------- keys and index

  function Rows(db: Database, table: string): seq<Rec> {
    if table in db then db[table] else []
  }

  function Lift(cells: map<string, Option<string>>): Row {
    map c | c in cells :: match cells[c] case None => Null case Some(s) => Text(s)
  }

  function Cell(row: Row, column: string): Value {
    if column in row then row[column] else Null
  }

  function Normalized(m: TableMap, column: string, v: Value): Part {
    match v
    case Null => Word(m.normalize(column, None))
    case Text(s) => Word(m.normalize(column, Some(s)))
    case Ref(id) => Pk(id)
  }

  function Parts(m: TableMap, columns: seq<string>, row: Row): seq<Part> {
    seq(|columns|, i requires 0 <= i < |columns| => Normalized(m, columns[i], Cell(row, columns[i])))
  }

  /** The key is usable only when every component is non-empty. */
  function KeyAt(m: TableMap, row: Row, i: nat): Option<Key>
    requires i < |m.naturalKeys|
  {
    var parts := Parts(m, m.naturalKeys[i], row);
    if forall j | 0 <= j < |parts| :: parts[j].Truthy() then Some(Key(i, parts)) else None
  }

  function Keys(m: TableMap, row: Row): set<Key> {
    set i | 0 <= i < |m.naturalKeys| && KeyAt(m, row, i).Some? :: KeyAt(m, row, i).value
  }

  /** `setdefault` for each key: keys that are already present keep their value. */
  function AddKeys(index: Index, keys: set<Key>, id: Id): Index {
    map k | k in index.Keys + keys :: if k in index then index[k] else id
  }

  function IndexOf(m: TableMap, rows: seq<Rec>): Index {
    if rows == [] then map[]
    else AddKeys(IndexOf(m, rows[..|rows| - 1]), Keys(m, rows[|rows| - 1].row), rows[|rows| - 1].id)
  }

  function Matches(keys: set<Key>, index: Index): set<Id> {
    set k | k in keys && k in index :: index[k]
  }

  /** True when only a secondary key matched although the first key was usable. */
  predicate NeedsReview(m: TableMap, row: Row, index: Index) {
    && 0 < |m.naturalKeys|
    && KeyAt(m, row, 0).Some?
    && KeyAt(m, row, 0).value !in index
  }

  // ---------------------------------------------------------------- foreign keys

  function Lookup(idMaps: IdMaps, table: string, v: Value): Option<Id> {
    if v.Text? && table in idMaps && v.text in idMaps[table] then Some(idMaps[table][v.text]) else None
  }

  /** One foreign key; None when the row has to be skipped. */
  function ResolveOne(fk: ForeignKey, idMaps: IdMaps, row: Row): Option<Row> {
    var v := Cell(row, fk.column);
    if v == Null then Some(row)
    else
      match Lookup(idMaps, fk.references, v)
      case Some(parent) => Some(row[fk.column := Ref(parent)])
      case None => if fk.onMissing == SetNull then Some(row[fk.column := Null]) else None
  }

  function Resolve(fks: seq<ForeignKey>, n: nat, idMaps: IdMaps, row: Row): Option<Row>
    requires n <= |fks|
  {
    if n == 0 then Some(row)
    else
      match Resolve(fks, n - 1, idMaps, row)
      case None => None
      case Some(r) => ResolveOne(fks[n - 1], idMaps, r)
  }

  function Remapped(m: TableMap, idMaps: IdMaps, src: Old): Option<Row> {
    Resolve(m.foreignKeys, |m.foreignKeys|, idMaps, Lift(src.cells))
  }

  // ---------------------------------------------------------------- one row, one map, one run

  function IdMap(idMaps: IdMaps, table: string): map<string, Id> {
    if table in idMaps then idMaps[table] else map[]
  }

  function Record(st: State, job: nat, m: TableMap, src: Old, outcome: Outcome, keys: set<Key>): State {
    st.(log := st.log + [Entry(job, m.target, src.pk, outcome, keys)])
  }

  function MapTo(st: State, m: TableMap, src: Old, id: Id): State {
    st.(idMaps := st.idMaps[m.target := IdMap(st.idMaps, m.target)[src.pk := id]])
  }

  /** A row no key of which is known: insert it, or name it in a preview. */
  function Admit(st: State, job: nat, m: TableMap, src: Old, row: Row, execute: bool, answer: Answer): State {
    var keys := Keys(m, row);
    if !execute then
      var id := Placeholder(m.target, src.pk);
      var mapped := MapTo(st, m, src, id).(index := AddKeys(st.index, keys, id));
      Record(mapped, job, m, src, Missing(id), keys)
    else if answer == Rejected then
      Record(st, job, m, src, InsertFailed, keys)
    else
      var id := answer.id;
      var mapped := MapTo(st, m, src, id).(
        index := AddKeys(st.index, keys, id),
        db := st.db[m.target := Rows(st.db, m.target) + [Rec(id, row)]]);
      Record(mapped, job, m, src, Inserted(id), keys)
  }

  /** A row some key of which is known: one row matches, or several do. */
  ghost function Skipped(st: State, job: nat, m: TableMap, src: Old, row: Row): State
    requires Matches(Keys(m, row), st.index) != {}
  {
    var keys := Keys(m, row);
    var ids := Matches(keys, st.index);
    var id :| id in ids;
    if ids == {id}
    then Record(MapTo(st, m, src, id), job, m, src, Duplicate(id, NeedsReview(m, row, st.index)), keys)
    else Record(st, job, m, src, Ambiguous, keys)
  }

  ghost function Step(st: State, job: nat, m: TableMap, src: Old, execute: bool, answer: Answer): State {
    match Remapped(m, st.idMaps, src)
    case None => Record(st, job, m, src, UnresolvedFk, {})
    case Some(row) =>
      if Keys(m, row) == {} then Record(st, job, m, src, NoNaturalKey, {})
      else if Matches(Keys(m, row), st.index) == {} then Admit(st, job, m, src, row, execute, answer)
      else Skipped(st, job, m, src, row)
  }

  /** Start of a map: its index is loaded from the target, its id map is created if absent. */
  function Open(st: State, m: TableMap): State {
    st.(index := IndexOf(m, Rows(st.db, m.target)),
        idMaps := st.idMaps[m.target := IdMap(st.idMaps, m.target)])
  }

  function Initial(db: Database): State {
    State(db, map[], map[], [])
  }

  /** The state once `k` maps are complete and `n` rows of map `k` are done. */
  ghost function At(s: Setup, db: Database, k: nat, n: nat): State
    requires k < |s.jobs| && n <= |s.jobs[k].rows|
    decreases k, 1, n
  {
    if n > 0 then Step(At(s, db, k, n - 1), k, s.jobs[k].m, s.jobs[k].rows[n - 1], s.execute, s.answers(k, n - 1))
    else Open(Before(s, db, k), s.jobs[k].m)
  }

  /** The state when map `k` is about to start. */
  ghost function Before(s: Setup, db: Database, k: nat): State
    requires k <= |s.jobs|
    decreases k, 0
  {
    if k == 0 then Initial(db) else At(s, db, k - 1, |s.jobs[k - 1].rows|)
  }

  ghost function Final(s: Setup, db: Database): State {
    Before(s, db, |s.jobs|)
  }

  // ---------------------------------------------------------------- what the configuration has to satisfy

  /** The parents-before-children rule and the listed-column rule of `validate`. */
  predicate Accepted(jobs: seq<Job>) {
    forall k | 0 <= k < |jobs| :: AcceptedMap(jobs, k)
  }

  predicate AcceptedMap(jobs: seq<Job>, k: nat)
    requires k < |jobs|
  {
    forall f | 0 <= f < |jobs[k].m.foreignKeys| :: AcceptedFk(jobs, k, jobs[k].m.foreignKeys[f])
  }

  predicate AcceptedFk(jobs: seq<Job>, k: nat, fk: ForeignKey)
    requires k < |jobs|
  {
    fk.column in jobs[k].m.columns && exists p | 0 <= p < k :: jobs[p].m.target == fk.references
  }

  /** A source key occurs once among all the rows that feed one target. */
  ghost predicate DistinctPks(jobs: seq<Job>) {
    forall k, n, k', n' | 0 <= k < |jobs| && 0 <= n < |jobs[k].rows| && 0 <= k' < |jobs| && 0 <= n' < |jobs[k'].rows| ::
      jobs[k].m.target == jobs[k'].m.target && jobs[k].rows[n].pk == jobs[k'].rows[n'].pk ==> k == k' && n == n'
  }

  /** Two maps that compare rows alike. */
  ghost predicate SameScheme(m: TableMap, m': TableMap) {
    m.naturalKeys == m'.naturalKeys && m.normalize == m'.normalize
  }

  ghost predicate OneKeyPerColumn(m: TableMap) {
    forall f, g | 0 <= f < g < |m.foreignKeys| :: m.foreignKeys[f].column != m.foreignKeys[g].column
  }

  /** Each column has at most one foreign key, and none that may become null takes part in a natural key. */
  ghost predicate StableKeys(m: TableMap) {
    && OneKeyPerColumn(m)
    && (forall f, i | 0 <= f < |m.foreignKeys| && m.foreignKeys[f].onMissing == SetNull && 0 <= i < |m.naturalKeys| ::
          m.foreignKeys[f].column !in m.naturalKeys[i])
  }

  /** Rows that share a usable key are one row. */
  ghost predicate UniqueKeys(m: TableMap, rows: seq<Rec>) {
    forall a, b | a in rows && b in rows && Keys(m, a.row) * Keys(m, b.row) != {} :: a.id == b.id
  }
}
