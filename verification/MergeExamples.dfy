/**
 * Two claims of the migration guide that fail without a precondition, each on a concrete input; and the shipped list of
 * maps, to which the theorem on second runs applies.
 */
module MergeExamples {
  import opened Common
  import opened MergeModel
  import opened MergeBasics
  import opened MergeIdempotence
  import opened MergePreview
  import MergeSecondRun

  function Plain(column: string, v: Option<string>): string {
    if v.Some? then v.value else ""
  }

  function OneKeyMap(name: string, target: string, column: string, fks: seq<ForeignKey>): TableMap {
    TableMap(name, target, {column}, [[column]], Plain, fks)
  }

  lemma KeysOfOne(m: TableMap, column: string, row: Row)
    requires m.naturalKeys == [[column]]
    ensures var part := Normalized(m, column, Cell(row, column));
      Keys(m, row) == if part.Truthy() then {Key(0, [part])} else {}
  {
    var part := Normalized(m, column, Cell(row, column));
    var parts := Parts(m, m.naturalKeys[0], row);
    assert parts == [part];
    assert parts[0].Truthy() <==> part.Truthy();
    assert KeyAt(m, row, 0) == if part.Truthy() then Some(Key(0, [part])) else None;
  }

  lemma IndexOfOne(m: TableMap, r: Rec)
    ensures IndexOf(m, [r]) == AddKeys(map[], Keys(m, r.row), r.id)
  {
    assert [r][..0] == [];
  }

  // ---------------------------------------------------------------- preview and merge

  const FIRST := OneKeyMap("first", "org", "name", [])
  const SECOND := OneKeyMap("second", "org", "name", [])

  /** Two maps feed one target and both source tables hold the same organisation. */
  function TwoSources(): seq<Job> {
    [Job(FIRST, [Old("1", map["name" := Some("acme")])]), Job(SECOND, [Old("2", map["name" := Some("acme")])])]
  }

  lemma PreviewRow(st: State, job: nat, m: TableMap, src: Old)
    requires m.naturalKeys == [["name"]] && m.normalize == Plain && m.foreignKeys == []
      && src.cells == map["name" := Some("acme")]
    requires st.index == map[]
    ensures Step(st, job, m, src, false, Rejected).log
      == st.log + [Entry(job, m.target, src.pk, Missing(Placeholder(m.target, src.pk)), {Key(0, [Word("acme")])})]
    ensures Step(st, job, m, src, false, Rejected).db == st.db
  {
    var row := Lift(src.cells);
    assert Remapped(m, st.idMaps, src) == Some(row);
    KeysOfOne(m, "name", row);
    assert Keys(m, row) == {Key(0, [Word("acme")])};
    assert Matches(Keys(m, row), st.index) == {};
  }

  /** The real merge of these two sources; every new row gets an id of its own. */
  ghost function TwoSourcesMerge(): Setup {
    Setup(TwoSources(), true, (i: nat, j: nat) => Assigned(Stored(i)))
  }

  /**
   * "What the preview reports missing is what the merge inserts" is false in
   * general: here the preview reports both rows missing, though the second has a
   * key of the first, so by PreviewIsExact the merge reports another outcome for
   * one of them.
   */
  lemma PreviewCanDisagree()
    ensures Differ(Final(Preview(TwoSources()), map[]).log, Final(TwoSourcesMerge(), map[]).log)
  {
    PreviewClashes();
    TwoSourcesAreFresh();
    PreviewIsExact(TwoSourcesMerge(), map[]);
  }

  lemma TwoSourcesAreDistinct()
    ensures DistinctPks(TwoSources())
  {
  }

  lemma TwoSourcesAreFresh()
    ensures DistinctPks(TwoSources()) && FreshAnswers(TwoSourcesMerge(), map[])
  {
    TwoSourcesAreDistinct();
    var s := TwoSourcesMerge();
    assert forall i, j | RowAt(s.jobs, i, j) :: (i == 0 || i == 1) && j == 0 && s.answers(i, j) == Assigned(Stored(i));
  }

  const ACME: Row := map["name" := Text("acme")]

  const ACME_KEY := Key(0, [Word("acme")])

  lemma FirstIsMissing()
    ensures MissingRow(TwoSources(), map[], 0, 0, ACME) && ACME_KEY in Keys(SECOND, ACME)
  {
    PreviewRow(At(Preview(TwoSources()), map[], 0, 0), 0, FIRST, TwoSources()[0].rows[0]);
    assert Lift(TwoSources()[0].rows[0].cells) == ACME;
    KeysOfOne(SECOND, "name", ACME);
  }

  lemma SecondClashes(p: State)
    requires p.index == map[]
    ensures var src := TwoSources()[1].rows[0];
      var p' := Step(p, 1, SECOND, src, false, Rejected);
      && Remapped(SECOND, p.idMaps, src) == Some(ACME)
      && |p'.log| == |p.log| + 1 && p'.log[|p.log|].outcome.Missing?
  {
    var src := TwoSources()[1].rows[0];
    PreviewRow(p, 1, SECOND, src);
    assert Lift(src.cells) == ACME;
  }

  /** The first row is reported missing, and the second has its key. */
  lemma PreviewClashes()
    ensures Conflict(TwoSources(), map[])
  {
    var jobs := TwoSources();
    FirstIsMissing();
    assert ReservedBy(jobs, map[], 0, 0, 1, ACME_KEY);
    assert Reserved(jobs, map[], 1, ACME_KEY);
    SecondClashes(At(Preview(jobs), map[], 1, 0));
    assert (1, 0) in ClashSet(jobs, map[]);
  }

  // ---------------------------------------------------------------- running twice

  const PARENTS := OneKeyMap("parents", "p", "name", [])
  const CHILDREN := OneKeyMap("children", "c", "parent", [ForeignKey("parent", "p", Skip)])

  /** One parent and its child. */
  function Family(): seq<Job> {
    [Job(PARENTS, [Old("1", map["name" := Some("a")])]), Job(CHILDREN, [Old("9", map["parent" := Some("1")])])]
  }

  function Twin(n: nat): Rec {
    Rec(Stored(n), map["name" := Text("a")])
  }

  /** The target holds two rows with the natural key of the parent. */
  function TwoTwins(n: nat, n': nat): Database {
    map["p" := [Twin(n), Twin(n')]]
  }

  function Merge(id: nat): Setup {
    Setup(Family(), true, (i, j) => Assigned(Stored(id)))
  }

  /** The parent matches whichever twin is read first. */
  lemma ParentMatches(s: Setup, db: Database, n: nat, n': nat)
    requires s.jobs == Family() && s.execute && Rows(db, "p") == [Twin(n), Twin(n')]
    ensures var st := At(s, db, 0, 1); st.db == db && Lookup(st.idMaps, "p", Text("1")) == Some(Stored(n))
    ensures NoFailure(At(s, db, 0, 1).log)
  {
    var st, src := At(s, db, 0, 0), s.jobs[0].rows[0];
    var row := Lift(src.cells);
    var key := Key(0, [Word("a")]);
    KeysOfOne(PARENTS, "name", row);
    KeysOfOne(PARENTS, "name", Twin(n).row);
    KeysOfOne(PARENTS, "name", Twin(n').row);
    assert [Twin(n), Twin(n')][..1] == [Twin(n)];
    IndexOfOne(PARENTS, Twin(n));
    assert st.index == map[key := Stored(n)];
    assert Keys(PARENTS, row) == {key};
    assert Matches({key}, st.index) == {Stored(n)} by {
      assert st.index[key] in Matches({key}, st.index);
    }
    assert Remapped(PARENTS, st.idMaps, src) == Some(row);
    var id :| id in Matches(Keys(PARENTS, row), st.index);
  }

  lemma ChildRow(st: State, n: nat)
    requires Lookup(st.idMaps, "p", Text("1")) == Some(Stored(n))
    ensures var row := map["parent" := Ref(Stored(n))];
      Remapped(CHILDREN, st.idMaps, Family()[1].rows[0]) == Some(row)
        && Keys(CHILDREN, row) == {Key(0, [Pk(Stored(n))])}
  {
    var row := map["parent" := Ref(Stored(n))];
    KeysOfOne(CHILDREN, "parent", row);
    var src := Family()[1].rows[0];
    assert Lift(src.cells) == map["parent" := Text("1")];
    var lifted: Row := Lift(src.cells);
    assert Resolve(CHILDREN.foreignKeys, 0, st.idMaps, lifted) == Some(lifted);
    assert Cell(lifted, "parent") == Text("1");
    assert lifted["parent" := Ref(Stored(n))] == row;
    assert ResolveOne(CHILDREN.foreignKeys[0], st.idMaps, lifted) == Some(row);
  }

  /** The other twin's child does not hold the key. */
  lemma ChildFree(children: seq<Rec>, n: nat)
    requires n < 2 && (children == [] || children == [Rec(Stored(7), map["parent" := Ref(Stored(1 - n))])])
    ensures Matches({Key(0, [Pk(Stored(n))])}, IndexOf(CHILDREN, children)) == {}
  {
    if children != [] {
      IndexOfOne(CHILDREN, children[0]);
      KeysOfOne(CHILDREN, "parent", children[0].row);
    }
  }

  lemma ChildAdmitted(st: State, n: nat, id: nat)
    requires n < 2 && Lookup(st.idMaps, "p", Text("1")) == Some(Stored(n)) && NoFailure(st.log)
    requires Matches({Key(0, [Pk(Stored(n))])}, st.index) == {}
    ensures var st' := Step(st, 1, CHILDREN, Family()[1].rows[0], true, Assigned(Stored(id)));
      && st'.db == st.db["c" := Rows(st.db, "c") + [Rec(Stored(id), map["parent" := Ref(Stored(n))])]]
      && NoFailure(st'.log) && exists e | e in st'.log :: e.outcome == Inserted(Stored(id))
  {
    ChildRow(st, n);
    var st' := Step(st, 1, CHILDREN, Family()[1].rows[0], true, Assigned(Stored(id)));
    assert st'.log[|st.log|].outcome == Inserted(Stored(id)) && st'.log[|st.log|] in st'.log;
  }

  lemma ChildOpen(s: Setup, db: Database, n: nat)
    requires s.jobs == Family() && s.execute && n < 2 && Rows(db, "p") == [Twin(n), Twin(1 - n)]
    ensures var st := At(s, db, 1, 0);
      && st.db == db && NoFailure(st.log) && st.index == IndexOf(CHILDREN, Rows(db, "c"))
      && Lookup(st.idMaps, "p", Text("1")) == Some(Stored(n))
  {
    ParentMatches(s, db, n, 1 - n);
    assert At(s, db, 1, 0) == Open(At(s, db, 0, 1), CHILDREN);
  }

  lemma ChildIsLast(s: Setup, db: Database, id: nat)
    requires s == Merge(id)
    ensures Final(s, db) == Step(At(s, db, 1, 0), 1, CHILDREN, Family()[1].rows[0], true, Assigned(Stored(id)))
  {
    assert Final(s, db) == At(s, db, 1, 1);
  }

  /** A child whose parent has no child yet is inserted. */
  lemma ChildInserted(s: Setup, db: Database, n: nat, id: nat)
    requires s == Merge(id)
    requires n < 2 && Rows(db, "p") == [Twin(n), Twin(1 - n)]
    requires Rows(db, "c") == [] || Rows(db, "c") == [Rec(Stored(7), map["parent" := Ref(Stored(1 - n))])]
    ensures Final(s, db).db == db["c" := Rows(db, "c") + [Rec(Stored(id), map["parent" := Ref(Stored(n))])]]
    ensures exists e | e in Final(s, db).log :: e.outcome == Inserted(Stored(id))
    ensures NoFailure(Final(s, db).log)
  {
    ChildOpen(s, db, n);
    ChildFree(Rows(db, "c"), n);
    ChildAdmitted(At(s, db, 1, 0), n, id);
    ChildIsLast(s, db, id);
  }

  lemma FamilyIsOrderly()
    ensures DistinctPks(Family())
    ensures forall k | 0 <= k < |Family()| :: StableKeys(Family()[k].m) && OneScheme(Family(), Family()[k].m)
  {
  }

  /**
   * "Running the merge a second time must insert nothing" is false when the
   * target already holds rows that share a natural key: the second run may read
   * them in another order, match the parent to the other twin, and insert the
   * child again.
   */
  lemma SecondRunCanInsert()
    ensures var first, second := Merge(7), Merge(8);
      var db, db' := TwoTwins(0, 1), TwoTwins(1, 0)["c" := [Rec(Stored(7), map["parent" := Ref(Stored(0))])]];
      && DistinctPks(first.jobs)
      && (forall k | 0 <= k < |first.jobs| :: StableKeys(first.jobs[k].m) && OneScheme(first.jobs, first.jobs[k].m))
      && SameRows(Final(first, db).db, db') && NoFailure(Final(first, db).log)
      && exists e | e in Final(second, db').log :: e.outcome == Inserted(Stored(8))
  {
    var db, db' := TwoTwins(0, 1), TwoTwins(1, 0)["c" := [Rec(Stored(7), map["parent" := Ref(Stored(0))])]];
    FamilyIsOrderly();
    ChildInserted(Merge(7), db, 0, 7);
    ChildInserted(Merge(8), db', 1, 8);
    forall t, r
      ensures r in Rows(Final(Merge(7), db).db, t) <==> r in Rows(db', t)
    {
      assert t == "p" || t == "c" || (Rows(Final(Merge(7), db).db, t) == [] && Rows(db', t) == []);
    }
  }

  // ---------------------------------------------------------------- the shipped list

  type Normalizer = (string, Option<string>) -> string

  /** Of the columns of a shipped map, those that its keys and foreign keys use. */
  function ShippedMap(name: string, target: string, key: seq<string>, normalize: Normalizer, fks: seq<ForeignKey>)
    : TableMap
  {
    TableMap(name, target, (set c | c in key) + (set f | f in fks :: f.column), [key], normalize, fks)
  }

  const TO_ORGANISATION := ForeignKey("organisation_id", "organisations_organisation", Skip)
  const TO_USER := ForeignKey("user_id", "accounts_user", Skip)
  const TO_SITE := ForeignKey("site_id", "mining_minesite", Skip)
  const TO_UPLOADER := ForeignKey("uploaded_by_id", "accounts_user", SetNull)

  const MEMBER_KEY := ["organisation_id", "user_id"]
  const DOCUMENT_KEY := ["site_id", "name", "file"]

  function Users(n: Normalizer): TableMap {
    ShippedMap("accounts_user", "accounts_user", ["email"], n, [])
  }

  function Organisations(name: string, n: Normalizer): TableMap {
    ShippedMap(name, "organisations_organisation", ["name", "organisation_type"], n, [])
  }

  function Memberships(name: string, n: Normalizer): TableMap {
    ShippedMap(name, "organisations_organisationmembership", MEMBER_KEY, n, [TO_ORGANISATION, TO_USER])
  }

  function Sites(n: Normalizer): TableMap {
    ShippedMap("mining_minesite", "mining_minesite", ["organisation_id", "name"], n, [TO_ORGANISATION])
  }

  function Licences(n: Normalizer): TableMap {
    ShippedMap("mining_licencedoc", "mining_licencedoc", ["site_id", "number", "type"], n, [TO_SITE])
  }

  function Documents(name: string, n: Normalizer): TableMap {
    ShippedMap(name, "mining_documentrecord", DOCUMENT_KEY, n, [TO_SITE, TO_UPLOADER])
  }

  /** The shipped list, in its order, with any normalizers: `mine` and `theirs` of the two maps of documents. */
  function ShippedMaps(users: Normalizer, organisations: Normalizer, sites: Normalizer, default: Normalizer,
      mine: Normalizer, theirs: Normalizer): seq<TableMap> {
    [ Users(users),
      Organisations("organisations (mining companies)", organisations),
      Memberships("memberships (mining company owners)", default),
      Sites(sites),
      Licences(default),
      Documents("site documents (miner documents)", mine),
      Documents("site documents (from miner profiles)", theirs),
      Organisations("organisations (compliance partners)", organisations),
      Memberships("memberships (compliance partner owners)", default) ]
  }

  ghost predicate AbsentIsBlank(n: Normalizer) {
    forall c :: n(c, None) == ""
  }

  lemma ShippedNeeds(ms: seq<TableMap>, t: string)
    requires MergeSecondRun.NeededIn(ms, t)
    requires forall k | 0 <= k < |ms| :: forall fk | fk in ms[k].foreignKeys ::
      fk in [TO_ORGANISATION, TO_USER, TO_SITE, TO_UPLOADER]
    ensures t in ["accounts_user", "organisations_organisation", "mining_minesite"]
  {
    var k :| 0 <= k < |ms| && NeededBy(ms[k], t);
    var f :| 0 <= f < |ms[k].foreignKeys| && ms[k].foreignKeys[f].onMissing == Skip
      && ms[k].foreignKeys[f].references == t;
    assert ms[k].foreignKeys[f] in ms[k].foreignKeys;
  }

  lemma ShippedKeysAreClear(n: Normalizer, name: string)
    ensures MergeSecondRun.ClearKeys(Users(n)) && MergeSecondRun.ClearKeys(Organisations(name, n))
    ensures MergeSecondRun.ClearKeys(Sites(n)) && MergeSecondRun.ClearKeys(Licences(n))
  {
    assert Sites(n).naturalKeys[0][0] == "organisation_id" && Licences(n).naturalKeys[0][0] == "site_id";
  }

  lemma MemberKeysAreClear(n: Normalizer, name: string)
    ensures MergeSecondRun.ClearKeys(Memberships(name, n))
  {
    assert MEMBER_KEY[0] == "organisation_id" && MEMBER_KEY[1] == "user_id";
    assert "organisation_id"[0] != "user_id"[0];
  }

  lemma DocumentKeysAreClear(n: Normalizer, name: string)
    ensures MergeSecondRun.ClearKeys(Documents(name, n))
  {
    assert DOCUMENT_KEY[0] == "site_id" && "site_id"[0] != "uploaded_by_id"[0];
    assert "name"[0] != "uploaded_by_id"[0] && "file"[0] != "uploaded_by_id"[0];
  }

  /** The order of the shipped tables, and the foreign keys of each map. */
  ghost predicate ShippedOrder(ms: seq<TableMap>) {
    && |ms| == 9
    && ms[0].target == "accounts_user" && ms[3].target == "mining_minesite" && ms[4].target == "mining_licencedoc"
    && ms[1].target == ms[7].target == "organisations_organisation"
    && ms[2].target == ms[8].target == "organisations_organisationmembership"
    && ms[5].target == ms[6].target == "mining_documentrecord"
    && ms[0].foreignKeys == ms[1].foreignKeys == ms[7].foreignKeys == [] && ms[3].foreignKeys == [TO_ORGANISATION]
    && ms[2].foreignKeys == ms[8].foreignKeys == [TO_ORGANISATION, TO_USER]
    && ms[4].foreignKeys == [TO_SITE] && ms[5].foreignKeys == ms[6].foreignKeys == [TO_SITE, TO_UPLOADER]
  }

  lemma ParentsAreMerged(ms: seq<TableMap>, k: nat, f: nat)
    requires ShippedOrder(ms) && k < 9 && f < |ms[k].foreignKeys|
    ensures MergeSecondRun.MergedBefore(ms, k, ms[k].foreignKeys[f].references)
  {
    var t := ms[k].foreignKeys[f].references;
    assert t == ms[0].target || t == ms[1].target || (t == ms[3].target && k > 3);
  }

  lemma ShippedParentsFirst(ms: seq<TableMap>, k: nat)
    requires ShippedOrder(ms) && k < 9
    ensures MergeSecondRun.ParentsFirst(ms, k)
  {
    forall f | 0 <= f < |ms[k].foreignKeys| && ms[k].foreignKeys[f].onMissing == Skip
      ensures MergeSecondRun.MergedBefore(ms, k, ms[k].foreignKeys[f].references)
    {
      ParentsAreMerged(ms, k, f);
    }
  }

  lemma NeededMaps(ms: seq<TableMap>, k: nat)
    requires ShippedOrder(ms) && k < 9
    requires ms[k].target in ["accounts_user", "organisations_organisation", "mining_minesite"]
    ensures k == 0 || k == 1 || k == 3 || k == 7
  {
    assert |ms[k].target| == 13 || |ms[k].target| == 26 || |ms[k].target| == 15;
    assert |ms[2].target| == 36 && |ms[4].target| == 17 && |ms[5].target| == 21;
  }

  lemma NeededMapsAgree(ms: seq<TableMap>, k: nat)
    requires ShippedOrder(ms) && (k == 0 || k == 1 || k == 3 || k == 7)
    requires SameScheme(ms[1], ms[7]) && AbsentIsBlank(ms[k].normalize)
    ensures MergeSecondRun.ParentMap(ms[k]) && MergeSecondRun.MapsAgree(ms, k)
  {
    assert |ms[0].target| == 13 && |ms[1].target| == 26 && |ms[3].target| == 15;
    assert |ms[2].target| == 36 && |ms[4].target| == 17 && |ms[5].target| == 21;
  }

  lemma ShippedIsAFamily(ms: seq<TableMap>)
    requires ShippedOrder(ms) && SameScheme(ms[1], ms[7])
    requires AbsentIsBlank(ms[0].normalize) && AbsentIsBlank(ms[1].normalize) && AbsentIsBlank(ms[3].normalize)
    requires forall k | 0 <= k < 9 :: MergeSecondRun.ClearKeys(ms[k])
    ensures MergeSecondRun.FamilyOfMaps(ms)
  {
    forall k | 0 <= k < |ms|
      ensures MergeSecondRun.ParentsFirst(ms, k)
      ensures MergeSecondRun.NeededIn(ms, ms[k].target) ==>
        MergeSecondRun.ParentMap(ms[k]) && MergeSecondRun.MapsAgree(ms, k)
    {
      ShippedParentsFirst(ms, k);
      if MergeSecondRun.NeededIn(ms, ms[k].target) {
        ShippedNeeds(ms, ms[k].target);
        NeededMaps(ms, k);
        NeededMapsAgree(ms, k);
      }
    }
  }

  /** The theorem on second runs is about the shipped list: nine maps of six tables, three of them needed. */
  lemma ShippedMapsAreAFamily(users: Normalizer, organisations: Normalizer, sites: Normalizer, default: Normalizer,
      mine: Normalizer, theirs: Normalizer)
    requires AbsentIsBlank(users) && AbsentIsBlank(organisations) && AbsentIsBlank(sites)
    ensures MergeSecondRun.FamilyOfMaps(ShippedMaps(users, organisations, sites, default, mine, theirs))
  {
    var ms := ShippedMaps(users, organisations, sites, default, mine, theirs);
    ShippedKeysAreClear(users, "");
    ShippedKeysAreClear(sites, "");
    ShippedKeysAreClear(default, "");
    ShippedKeysAreClear(organisations, "organisations (mining companies)");
    ShippedKeysAreClear(organisations, "organisations (compliance partners)");
    MemberKeysAreClear(default, "memberships (mining company owners)");
    MemberKeysAreClear(default, "memberships (compliance partner owners)");
    DocumentKeysAreClear(mine, "site documents (miner documents)");
    DocumentKeysAreClear(theirs, "site documents (from miner profiles)");
    ShippedIsAFamily(ms);
  }
}
