/**
 * The merge does not look inside primary keys: giving new rows other ids renames the whole run and changes
 * nothing else.
 */
module MergeRenaming {
  import opened Common
  import opened MergeModel
  import opened MergeBasics

  /** `image` is one-to-one on the ids outside `taken`. */
  datatype Renaming = Renaming(image: Id -> Id, taken: set<Id>)

  ghost predicate Sensible(ren: Renaming) {
    forall a, b :: a !in ren.taken && b !in ren.taken && ren.image(a) == ren.image(b) ==> a == b
  }

  function ImgValue(ren: Renaming, v: Value): Value {
    if v.Ref? then Ref(ren.image(v.id)) else v
  }

  predicate SafeValue(ren: Renaming, v: Value) {
    v.Ref? ==> v.id !in ren.taken
  }

  function ImgRow(ren: Renaming, row: Row): Row {
    map c | c in row :: ImgValue(ren, row[c])
  }

  predicate SafeRow(ren: Renaming, row: Row) {
    forall c | c in row :: SafeValue(ren, row[c])
  }

  function ImgPart(ren: Renaming, p: Part): Part {
    if p.Pk? then Pk(ren.image(p.id)) else p
  }

  predicate SafePart(ren: Renaming, p: Part) {
    p.Pk? ==> p.id !in ren.taken
  }

  function ImgKey(ren: Renaming, k: Key): Key {
    Key(k.scheme, seq(|k.parts|, i requires 0 <= i < |k.parts| => ImgPart(ren, k.parts[i])))
  }

  predicate SafeKey(ren: Renaming, k: Key) {
    forall i | 0 <= i < |k.parts| :: SafePart(ren, k.parts[i])
  }

  function ImgKeys(ren: Renaming, keys: set<Key>): set<Key> {
    set k | k in keys :: ImgKey(ren, k)
  }

  predicate SafeKeys(ren: Renaming, keys: set<Key>) {
    forall k | k in keys :: SafeKey(ren, k)
  }

  function ImgOutcome(ren: Renaming, o: Outcome): Outcome {
    match o
    case Duplicate(id, review) => Duplicate(ren.image(id), review)
    case Missing(id) => Missing(ren.image(id))
    case Inserted(id) => Inserted(ren.image(id))
    case _ => o
  }

  function ImgEntry(ren: Renaming, e: Entry): Entry {
    e.(outcome := ImgOutcome(ren, e.outcome), keys := ImgKeys(ren, e.keys))
  }

  ghost predicate RowsImage(ren: Renaming, a: seq<Rec>, b: seq<Rec>) {
    |a| == |b| && forall x | 0 <= x < |a| :: RecImage(ren, a[x], b[x])
  }

  ghost predicate RecImage(ren: Renaming, a: Rec, b: Rec) {
    a.id !in ren.taken && SafeRow(ren, a.row) && b == Rec(ren.image(a.id), ImgRow(ren, a.row))
  }

  ghost predicate DbImage(ren: Renaming, a: Database, b: Database) {
    forall t :: RowsImage(ren, Rows(a, t), Rows(b, t))
  }

  ghost predicate MapImage(ren: Renaming, a: map<string, Id>, b: map<string, Id>) {
    a.Keys == b.Keys && forall pk | pk in a :: a[pk] !in ren.taken && b[pk] == ren.image(a[pk])
  }

  ghost predicate MapsImage(ren: Renaming, a: IdMaps, b: IdMaps) {
    forall t :: MapImage(ren, IdMap(a, t), IdMap(b, t))
  }

  ghost predicate IndexImage(ren: Renaming, a: Index, b: Index) {
    && (forall k | k in a :: SafeKey(ren, k) && a[k] !in ren.taken && ImgKey(ren, k) in b
         && b[ImgKey(ren, k)] == ren.image(a[k]))
    && (forall k' | k' in b :: exists k | k in a :: ImgKey(ren, k) == k')
  }

  ghost predicate LogImage(ren: Renaming, a: seq<Entry>, b: seq<Entry>) {
    |a| == |b| && forall x | 0 <= x < |a| :: b[x] == ImgEntry(ren, a[x])
  }

  ghost predicate StateImage(ren: Renaming, a: State, b: State) {
    && DbImage(ren, a.db, b.db) && MapsImage(ren, a.idMaps, b.idMaps)
    && IndexImage(ren, a.index, b.index) && LogImage(ren, a.log, b.log)
  }

  // ---------------------------------------------------------------- keys

  lemma KeyAtImage(ren: Renaming, m: TableMap, row: Row, i: nat)
    requires i < |m.naturalKeys| && SafeRow(ren, row)
    ensures match KeyAt(m, row, i)
      case None => KeyAt(m, ImgRow(ren, row), i) == None
      case Some(k) => SafeKey(ren, k) && KeyAt(m, ImgRow(ren, row), i) == Some(ImgKey(ren, k))
  {
    var columns := m.naturalKeys[i];
    var p, q := Parts(m, columns, row), Parts(m, columns, ImgRow(ren, row));
    forall j | 0 <= j < |columns|
      ensures q[j] == ImgPart(ren, p[j]) && SafePart(ren, p[j])
    {
      assert Cell(ImgRow(ren, row), columns[j]) == ImgValue(ren, Cell(row, columns[j]));
    }
    if KeyAt(m, row, i).Some? {
      assert ImgKey(ren, Key(i, p)).parts == q;
      assert forall j | 0 <= j < |q| :: p[j].Truthy() && q[j].Truthy();
    } else {
      var j :| 0 <= j < |p| && !p[j].Truthy();
      assert !q[j].Truthy();
    }
  }

  lemma KeysImage(ren: Renaming, m: TableMap, row: Row)
    requires SafeRow(ren, row)
    ensures SafeKeys(ren, Keys(m, row)) && Keys(m, ImgRow(ren, row)) == ImgKeys(ren, Keys(m, row))
  {
    forall i | 0 <= i < |m.naturalKeys|
      ensures match KeyAt(m, row, i)
        case None => KeyAt(m, ImgRow(ren, row), i) == None
        case Some(k) => SafeKey(ren, k) && KeyAt(m, ImgRow(ren, row), i) == Some(ImgKey(ren, k))
    {
      KeyAtImage(ren, m, row, i);
    }
    forall k' | k' in ImgKeys(ren, Keys(m, row))
      ensures k' in Keys(m, ImgRow(ren, row))
    {
      var k :| k in Keys(m, row) && k' == ImgKey(ren, k);
      var i :| 0 <= i < |m.naturalKeys| && KeyAt(m, row, i) == Some(k);
      assert KeyAt(m, ImgRow(ren, row), i) == Some(k');
    }
    forall k' | k' in Keys(m, ImgRow(ren, row))
      ensures k' in ImgKeys(ren, Keys(m, row))
    {
      var i :| 0 <= i < |m.naturalKeys| && KeyAt(m, ImgRow(ren, row), i) == Some(k');
      assert KeyAt(m, row, i).Some?;
      assert KeyAt(m, row, i).value in Keys(m, row);
    }
  }

  lemma ImgKeyInjective(ren: Renaming, a: Key, b: Key)
    requires Sensible(ren) && SafeKey(ren, a) && SafeKey(ren, b) && ImgKey(ren, a) == ImgKey(ren, b)
    ensures a == b
  {
    forall i | 0 <= i < |a.parts|
      ensures a.parts[i] == b.parts[i]
    {
      assert ImgKey(ren, a).parts[i] == ImgKey(ren, b).parts[i];
      assert SafePart(ren, a.parts[i]) && SafePart(ren, b.parts[i]);
    }
    assert |ImgKey(ren, a).parts| == |ImgKey(ren, b).parts|;
    assert a.parts == b.parts;
  }

  lemma InIndexImage(ren: Renaming, a: Index, b: Index, k: Key)
    requires Sensible(ren) && IndexImage(ren, a, b) && SafeKey(ren, k)
    ensures k in a <==> ImgKey(ren, k) in b
  {
    if ImgKey(ren, k) in b {
      var j :| j in a && ImgKey(ren, j) == ImgKey(ren, k);
      ImgKeyInjective(ren, j, k);
    }
  }

  lemma AddKeysImage(ren: Renaming, a: Index, b: Index, keys: set<Key>, id: Id)
    requires Sensible(ren) && IndexImage(ren, a, b) && SafeKeys(ren, keys) && id !in ren.taken
    ensures IndexImage(ren, AddKeys(a, keys, id), AddKeys(b, ImgKeys(ren, keys), ren.image(id)))
  {
    var a', b' := AddKeys(a, keys, id), AddKeys(b, ImgKeys(ren, keys), ren.image(id));
    forall k | k in a'
      ensures SafeKey(ren, k) && a'[k] !in ren.taken && ImgKey(ren, k) in b' && b'[ImgKey(ren, k)] == ren.image(a'[k])
    {
      InIndexImage(ren, a, b, k);
    }
    forall k' | k' in b'
      ensures exists k | k in a' :: ImgKey(ren, k) == k'
    {
      if k' in b {
        var k :| k in a && ImgKey(ren, k) == k';
        assert k in a';
      } else {
        var k :| k in keys && ImgKey(ren, k) == k';
        assert k in a';
      }
    }
  }

  lemma MatchesImage(ren: Renaming, keys: set<Key>, a: Index, b: Index)
    requires Sensible(ren) && IndexImage(ren, a, b) && SafeKeys(ren, keys)
    ensures Matches(ImgKeys(ren, keys), b) == set id | id in Matches(keys, a) :: ren.image(id)
    ensures forall id | id in Matches(keys, a) :: id !in ren.taken
  {
    forall id' | id' in Matches(ImgKeys(ren, keys), b)
      ensures id' in set id | id in Matches(keys, a) :: ren.image(id)
    {
      var k' :| k' in ImgKeys(ren, keys) && k' in b && b[k'] == id';
      var k :| k in keys && ImgKey(ren, k) == k';
      InIndexImage(ren, a, b, k);
      assert a[k] in Matches(keys, a);
    }
    forall id | id in Matches(keys, a)
      ensures ren.image(id) in Matches(ImgKeys(ren, keys), b) && id !in ren.taken
    {
      var k :| k in keys && k in a && a[k] == id;
      assert ImgKey(ren, k) in ImgKeys(ren, keys);
    }
  }

  lemma {:induction false} IndexOfImage(ren: Renaming, m: TableMap, a: seq<Rec>, b: seq<Rec>)
    requires Sensible(ren) && RowsImage(ren, a, b)
    ensures IndexImage(ren, IndexOf(m, a), IndexOf(m, b))
  {
    if a != [] {
      var last := |a| - 1;
      IndexOfImage(ren, m, a[..last], b[..last]);
      LastRowImage(ren, m, a, b, IndexOf(m, a[..last]), IndexOf(m, b[..last]));
    }
  }

  lemma LastRowImage(ren: Renaming, m: TableMap, a: seq<Rec>, b: seq<Rec>, x: Index, y: Index)
    requires Sensible(ren) && RowsImage(ren, a, b) && a != [] && IndexImage(ren, x, y)
    ensures var last := |a| - 1;
      IndexImage(ren, AddKeys(x, Keys(m, a[last].row), a[last].id), AddKeys(y, Keys(m, b[last].row), b[last].id))
  {
    var last := |a| - 1;
    assert RecImage(ren, a[last], b[last]);
    KeysImage(ren, m, a[last].row);
    AddKeysImage(ren, x, y, Keys(m, a[last].row), a[last].id);
  }

  // ---------------------------------------------------------------- foreign keys

  lemma ResolveOneImage(ren: Renaming, fk: ForeignKey, a: IdMaps, b: IdMaps, row: Row)
    requires MapsImage(ren, a, b) && SafeRow(ren, row)
    ensures match ResolveOne(fk, a, row)
      case None => ResolveOne(fk, b, ImgRow(ren, row)) == None
      case Some(r) => SafeRow(ren, r) && ResolveOne(fk, b, ImgRow(ren, row)) == Some(ImgRow(ren, r))
  {
    var v := Cell(row, fk.column);
    assert Cell(ImgRow(ren, row), fk.column) == ImgValue(ren, v);
    assert MapImage(ren, IdMap(a, fk.references), IdMap(b, fk.references));
    match ResolveOne(fk, a, row)
    case None =>
    case Some(r) => assert ResolveOne(fk, b, ImgRow(ren, row)).value == ImgRow(ren, r);
  }

  lemma {:induction false} ResolveImage(ren: Renaming, fks: seq<ForeignKey>, n: nat, a: IdMaps, b: IdMaps, row: Row)
    requires n <= |fks| && MapsImage(ren, a, b) && SafeRow(ren, row)
    ensures match Resolve(fks, n, a, row)
      case None => Resolve(fks, n, b, ImgRow(ren, row)) == None
      case Some(r) => SafeRow(ren, r) && Resolve(fks, n, b, ImgRow(ren, row)) == Some(ImgRow(ren, r))
  {
    if n > 0 {
      ResolveImage(ren, fks, n - 1, a, b, row);
      if Resolve(fks, n - 1, a, row).Some? {
        ResolveOneImage(ren, fks[n - 1], a, b, Resolve(fks, n - 1, a, row).value);
      }
    }
  }

  lemma RemappedImage(ren: Renaming, m: TableMap, a: IdMaps, b: IdMaps, src: Old)
    requires MapsImage(ren, a, b)
    ensures match Remapped(m, a, src)
      case None => Remapped(m, b, src) == None
      case Some(r) => SafeRow(ren, r) && Remapped(m, b, src) == Some(ImgRow(ren, r))
  {
    assert ImgRow(ren, Lift(src.cells)) == Lift(src.cells);
    ResolveImage(ren, m.foreignKeys, |m.foreignKeys|, a, b, Lift(src.cells));
  }

  // ---------------------------------------------------------------- one row

  lemma MapToImage(ren: Renaming, a: State, b: State, m: TableMap, src: Old, id: Id)
    requires MapsImage(ren, a.idMaps, b.idMaps) && id !in ren.taken
    ensures MapsImage(ren, MapTo(a, m, src, id).idMaps, MapTo(b, m, src, ren.image(id)).idMaps)
  {
    forall t
      ensures MapImage(ren, IdMap(MapTo(a, m, src, id).idMaps, t), IdMap(MapTo(b, m, src, ren.image(id)).idMaps, t))
    {
      assert MapImage(ren, IdMap(a.idMaps, t), IdMap(b.idMaps, t));
    }
  }

  lemma LogImageAppend(ren: Renaming, a: seq<Entry>, b: seq<Entry>, e: Entry)
    requires LogImage(ren, a, b)
    ensures LogImage(ren, a + [e], b + [ImgEntry(ren, e)])
  {
  }

  lemma RecordImage(ren: Renaming, a: State, b: State, job: nat, m: TableMap, src: Old, o: Outcome, keys: set<Key>)
    requires StateImage(ren, a, b)
    ensures StateImage(ren, Record(a, job, m, src, o, keys),
      Record(b, job, m, src, ImgOutcome(ren, o), ImgKeys(ren, keys)))
  {
    LogImageAppend(ren, a.log, b.log, Entry(job, m.target, src.pk, o, keys));
  }

  lemma InsertImage(ren: Renaming, a: State, b: State, m: TableMap, id: Id, row: Row)
    requires DbImage(ren, a.db, b.db) && id !in ren.taken && SafeRow(ren, row)
    ensures DbImage(ren, a.db[m.target := Rows(a.db, m.target) + [Rec(id, row)]],
                    b.db[m.target := Rows(b.db, m.target) + [Rec(ren.image(id), ImgRow(ren, row))]])
  {
    var a' := a.db[m.target := Rows(a.db, m.target) + [Rec(id, row)]];
    var b' := b.db[m.target := Rows(b.db, m.target) + [Rec(ren.image(id), ImgRow(ren, row))]];
    forall t
      ensures RowsImage(ren, Rows(a', t), Rows(b', t))
    {
      assert RowsImage(ren, Rows(a.db, t), Rows(b.db, t));
    }
  }

  /** The state of `Admit` before its line is logged. */
  function Grown(st: State, m: TableMap, src: Old, row: Row, keys: set<Key>, id: Id): State {
    MapTo(st, m, src, id).(
      index := AddKeys(st.index, keys, id),
      db := st.db[m.target := Rows(st.db, m.target) + [Rec(id, row)]])
  }

  lemma GrownImage(ren: Renaming, a: State, b: State, m: TableMap, src: Old, row: Row, keys: set<Key>, id: Id)
    requires Sensible(ren) && StateImage(ren, a, b) && SafeRow(ren, row) && SafeKeys(ren, keys) && id !in ren.taken
    ensures StateImage(ren, Grown(a, m, src, row, keys, id),
                       Grown(b, m, src, ImgRow(ren, row), ImgKeys(ren, keys), ren.image(id)))
  {
    InsertImage(ren, a, b, m, id, row);
    MapToImage(ren, a, b, m, src, id);
    AddKeysImage(ren, a.index, b.index, keys, id);
  }

  lemma AdmitIsGrown(st: State, job: nat, m: TableMap, src: Old, row: Row, id: Id)
    ensures Admit(st, job, m, src, row, true, Assigned(id))
         == Record(Grown(st, m, src, row, Keys(m, row), id), job, m, src, Inserted(id), Keys(m, row))
  {
  }

  lemma AdmitImage(ren: Renaming, a: State, b: State, job: nat, m: TableMap, src: Old, row: Row, id: Id)
    requires Sensible(ren) && StateImage(ren, a, b) && SafeRow(ren, row) && id !in ren.taken
    ensures StateImage(ren, Admit(a, job, m, src, row, true, Assigned(id)),
                       Admit(b, job, m, src, ImgRow(ren, row), true, Assigned(ren.image(id))))
  {
    KeysImage(ren, m, row);
    AdmitIsGrown(a, job, m, src, row, id);
    AdmitIsGrown(b, job, m, src, ImgRow(ren, row), ren.image(id));
    GrownRecordImage(ren, a, b, job, m, src, row, Keys(m, row), id);
  }

  lemma GrownRecordImage(ren: Renaming, a: State, b: State, job: nat, m: TableMap, src: Old, row: Row,
      keys: set<Key>, id: Id)
    requires Sensible(ren) && StateImage(ren, a, b) && SafeRow(ren, row) && SafeKeys(ren, keys) && id !in ren.taken
    ensures StateImage(ren,
      Record(Grown(a, m, src, row, keys, id), job, m, src, Inserted(id), keys),
      Record(Grown(b, m, src, ImgRow(ren, row), ImgKeys(ren, keys), ren.image(id)), job, m, src,
             Inserted(ren.image(id)), ImgKeys(ren, keys)))
  {
    GrownImage(ren, a, b, m, src, row, keys, id);
    var a', b' := Grown(a, m, src, row, keys, id),
      Grown(b, m, src, ImgRow(ren, row), ImgKeys(ren, keys), ren.image(id));
    RecordImage(ren, a', b', job, m, src, Inserted(id), keys);
  }

  lemma ReviewImage(ren: Renaming, m: TableMap, row: Row, a: Index, b: Index)
    requires Sensible(ren) && IndexImage(ren, a, b) && SafeRow(ren, row)
    ensures NeedsReview(m, row, a) == NeedsReview(m, ImgRow(ren, row), b)
  {
    if 0 < |m.naturalKeys| {
      KeyAtImage(ren, m, row, 0);
      if KeyAt(m, row, 0).Some? {
        InIndexImage(ren, a, b, KeyAt(m, row, 0).value);
      }
    }
  }

  lemma SkippedWithOne(st: State, job: nat, m: TableMap, src: Old, row: Row, id: Id)
    requires Matches(Keys(m, row), st.index) == {id}
    ensures Skipped(st, job, m, src, row)
         == Record(MapTo(st, m, src, id), job, m, src, Duplicate(id, NeedsReview(m, row, st.index)), Keys(m, row))
  {
    assert forall x | x in Matches(Keys(m, row), st.index) :: x == id;
  }

  lemma SkippedWithMany(st: State, job: nat, m: TableMap, src: Old, row: Row, id: Id, id': Id)
    requires id in Matches(Keys(m, row), st.index) && id' in Matches(Keys(m, row), st.index) && id != id'
    ensures Skipped(st, job, m, src, row) == Record(st, job, m, src, Ambiguous, Keys(m, row))
  {
  }

  lemma OneImage(ren: Renaming, a: State, b: State, job: nat, m: TableMap, src: Old, row: Row, id: Id)
    requires Sensible(ren) && StateImage(ren, a, b) && SafeRow(ren, row) && id !in ren.taken
    requires Matches(Keys(m, row), a.index) == {id} && Matches(Keys(m, ImgRow(ren, row)), b.index) == {ren.image(id)}
    ensures StateImage(ren, Skipped(a, job, m, src, row), Skipped(b, job, m, src, ImgRow(ren, row)))
  {
    SkippedWithOne(a, job, m, src, row, id);
    SkippedWithOne(b, job, m, src, ImgRow(ren, row), ren.image(id));
    KeysImage(ren, m, row);
    ReviewImage(ren, m, row, a.index, b.index);
    DuplicateImage(ren, a, b, job, m, src, id, NeedsReview(m, row, a.index), Keys(m, row));
  }

  lemma DuplicateImage(ren: Renaming, a: State, b: State, job: nat, m: TableMap, src: Old, id: Id, review: bool,
      keys: set<Key>)
    requires StateImage(ren, a, b) && id !in ren.taken
    ensures StateImage(ren, Record(MapTo(a, m, src, id), job, m, src, Duplicate(id, review), keys),
                       Record(MapTo(b, m, src, ren.image(id)), job, m, src, Duplicate(ren.image(id), review),
                         ImgKeys(ren, keys)))
  {
    MapToImage(ren, a, b, m, src, id);
    RecordImage(ren, MapTo(a, m, src, id), MapTo(b, m, src, ren.image(id)), job, m, src, Duplicate(id, review), keys);
  }

  lemma ManyImage(ren: Renaming, a: State, b: State, job: nat, m: TableMap, src: Old, row: Row, id: Id, id': Id)
    requires StateImage(ren, a, b) && SafeRow(ren, row) && id != id' && ren.image(id) != ren.image(id')
    requires {id, id'} <= Matches(Keys(m, row), a.index)
    requires {ren.image(id), ren.image(id')} <= Matches(Keys(m, ImgRow(ren, row)), b.index)
    ensures StateImage(ren, Skipped(a, job, m, src, row), Skipped(b, job, m, src, ImgRow(ren, row)))
  {
    KeysImage(ren, m, row);
    SkippedWithMany(a, job, m, src, row, id, id');
    SkippedWithMany(b, job, m, src, ImgRow(ren, row), ren.image(id), ren.image(id'));
    RecordImage(ren, a, b, job, m, src, Ambiguous, Keys(m, row));
  }

  lemma SkippedImage(ren: Renaming, a: State, b: State, job: nat, m: TableMap, src: Old, row: Row)
    requires Sensible(ren) && StateImage(ren, a, b) && SafeRow(ren, row) && Matches(Keys(m, row), a.index) != {}
    ensures Matches(Keys(m, ImgRow(ren, row)), b.index) != {}
    ensures StateImage(ren, Skipped(a, job, m, src, row), Skipped(b, job, m, src, ImgRow(ren, row)))
  {
    var ids, ids' := Matches(Keys(m, row), a.index), Matches(Keys(m, ImgRow(ren, row)), b.index);
    MatchesOfImage(ren, a.index, b.index, m, row);
    var id :| id in ids;
    assert ren.image(id) in ids';
    if id' :| id' in ids && id' != id {
      assert ren.image(id') in ids';
      ManyImage(ren, a, b, job, m, src, row, id, id');
    } else {
      assert ids == {id};
      assert ids' == {ren.image(id)};
      OneImage(ren, a, b, job, m, src, row, id);
    }
  }

  lemma MatchesOfImage(ren: Renaming, a: Index, b: Index, m: TableMap, row: Row)
    requires Sensible(ren) && IndexImage(ren, a, b) && SafeRow(ren, row)
    ensures Matches(Keys(m, ImgRow(ren, row)), b) == set id | id in Matches(Keys(m, row), a) :: ren.image(id)
    ensures forall id | id in Matches(Keys(m, row), a) :: id !in ren.taken
  {
    KeysImage(ren, m, row);
    MatchesImage(ren, Keys(m, row), a, b);
  }

  lemma StepImage(ren: Renaming, a: State, b: State, job: nat, m: TableMap, src: Old, id: Id)
    requires Sensible(ren) && StateImage(ren, a, b) && id !in ren.taken
    ensures StateImage(ren, Step(a, job, m, src, true, Assigned(id)),
      Step(b, job, m, src, true, Assigned(ren.image(id))))
  {
    RemappedImage(ren, m, a.idMaps, b.idMaps, src);
    match Remapped(m, a.idMaps, src)
    case None => RecordImage(ren, a, b, job, m, src, UnresolvedFk, {});
    case Some(row) =>
      KeysImage(ren, m, row);
      MatchesImage(ren, Keys(m, row), a.index, b.index);
      if Keys(m, row) == {} {
        RecordImage(ren, a, b, job, m, src, NoNaturalKey, {});
      } else if Matches(Keys(m, row), a.index) == {} {
        ImageNonEmpty(ren, Keys(m, row));
        AdmitImage(ren, a, b, job, m, src, row, id);
      } else {
        ImageNonEmpty(ren, Keys(m, row));
        SkippedImage(ren, a, b, job, m, src, row);
      }
  }

  lemma ImageNonEmpty(ren: Renaming, keys: set<Key>)
    requires keys != {}
    ensures ImgKeys(ren, keys) != {}
  {
    var k :| k in keys;
    assert ImgKey(ren, k) in ImgKeys(ren, keys);
  }

  lemma OpenImage(ren: Renaming, a: State, b: State, m: TableMap)
    requires Sensible(ren) && StateImage(ren, a, b)
    ensures StateImage(ren, Open(a, m), Open(b, m))
  {
    IndexOfImage(ren, m, Rows(a.db, m.target), Rows(b.db, m.target));
    forall t
      ensures MapImage(ren, IdMap(Open(a, m).idMaps, t), IdMap(Open(b, m).idMaps, t))
    {
      assert MapImage(ren, IdMap(a.idMaps, t), IdMap(b.idMaps, t));
    }
  }

  // ---------------------------------------------------------------- whole runs

  /** `b` is the merge of the same jobs, given the renamed ids. */
  ghost predicate SameMergeRenamed(ren: Renaming, a: Setup, b: Setup) {
    && a.jobs == b.jobs && a.execute && b.execute
    && forall i, j | 0 <= i < |a.jobs| && 0 <= j < |a.jobs[i].rows| ::
         a.answers(i, j).Assigned? && a.answers(i, j).id !in ren.taken
         && b.answers(i, j) == Assigned(ren.image(a.answers(i, j).id))
  }

  /** The renamed merge goes through the renamed states. */
  lemma {:induction false} RenamedRun(ren: Renaming, a: Setup, b: Setup, db: Database, k: nat, n: nat)
    requires Sensible(ren) && SameMergeRenamed(ren, a, b) && DbImage(ren, db, db) && Position(a, k, n)
    ensures StateImage(ren, At(a, db, k, n), At(b, db, k, n))
    decreases k, n
  {
    if n > 0 {
      RenamedRun(ren, a, b, db, k, n - 1);
      StepImage(ren, At(a, db, k, n - 1), At(b, db, k, n - 1), k, a.jobs[k].m, a.jobs[k].rows[n - 1],
        a.answers(k, n - 1).id);
    } else {
      if k > 0 {
        RenamedRun(ren, a, b, db, k - 1, |a.jobs[k - 1].rows|);
      }
      OpenImage(ren, Before(a, db, k), Before(b, db, k), a.jobs[k].m);
    }
  }
}
