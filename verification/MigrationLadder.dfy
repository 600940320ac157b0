/**
 Running a migration ladder over partially migrated schemas.  A schema is the
 set of its objects; a version's statements run in one transaction that is
 rolled back on any failure and records the version only after its required
 objects exist.  The ladder is a parameter here; its statements are in Migration.
 */
module MigrationLadder {
  import opened Wrappers

  datatype Table =
    | SchemaVersion | Projects | Sessions | Turns | RouterRequests
    | IntentEpisodes | Findings | PromptArtifacts | Watermark | Runs
    | AgentCalls | AgentEvents | SkillPins
    | FindingObservations | RunAnalyzedProjects | ProjectGitSnapshots
    | ImportedBundles | ImportedSessions | ImportedTurns
    | SpendLedger | SourceCadence
    | OtherTable(name: string)

  /** One foreign key: target table and the (from, to) column pairs it groups. */
  datatype ForeignKey = ForeignKey(target: Table, pairs: seq<(string, string)>)

  datatype Object = Tbl(t: Table) | Col(t: Table, c: string) | Fk(t: Table, fk: ForeignKey) | Idx(name: string)

  datatype Statement =
    | CreateTable(t: Table)
    | AddColumn(t: Table, c: string)
    | CreateIndex(name: string, t: Table, columns: set<string>)

  function Cols(t: Table, names: set<string>): (r: set<Object>)
    ensures forall o :: o in r ==> o.Col?
  {
    set c | c in names :: Col(t, c)
  }

  // ----- executing statements, for any shapes of the created tables -----

  type Shapes = Table -> set<Object>

  function Gives(shapes: Shapes, s: Statement): set<Object> {
    match s
    case CreateTable(t) => {Tbl(t)} + shapes(t)
    case AddColumn(t, c) => {Col(t, c)}
    case CreateIndex(name, _, _) => {Idx(name)}
  }

  function Needs(s: Statement): set<Object> {
    match s
    case CreateTable(_) => {}
    case AddColumn(t, _) => {Tbl(t)}
    case CreateIndex(_, t, columns) => {Tbl(t)} + Cols(t, columns)
  }

  /** The guarded statement: present objects are left alone, whatever their shape; None when it errors. */
  function Exec(shapes: Shapes, objects: set<Object>, s: Statement): Option<set<Object>> {
    match s
    case CreateTable(t) => Some(if Tbl(t) in objects then objects else objects + Gives(shapes, s))
    case AddColumn(t, c) =>
      if Tbl(t) !in objects then None
      else if Col(t, c) in objects then Some(objects)
      else Some(objects + Gives(shapes, s))
    case CreateIndex(name, _, _) =>
      if Idx(name) in objects then Some(objects)
      else if Needs(s) <= objects then Some(objects + Gives(shapes, s))
      else None
  }

  function ExecAll(shapes: Shapes, objects: set<Object>, stmts: seq<Statement>, n: nat): Option<set<Object>>
    requires n <= |stmts|
  {
    if n == 0 then Some(objects)
    else
      var before := ExecAll(shapes, objects, stmts, n - 1);
      if before.None? then None else Exec(shapes, before.value, stmts[n - 1])
  }

  function GivesAll(shapes: Shapes, stmts: seq<Statement>, n: nat): set<Object>
    requires n <= |stmts|
  {
    if n == 0 then {} else GivesAll(shapes, stmts, n - 1) + Gives(shapes, stmts[n - 1])
  }

  /** A table's parts are columns and keys, not tables. */
  ghost predicate Plain(shapes: Shapes) { forall t, u :: Tbl(u) !in shapes(t) }

  /** Tables that are there have at least the shape the ladder gives them. */
  ghost predicate WellShaped(shapes: Shapes, objects: set<Object>) {
    forall t :: Tbl(t) in objects ==> shapes(t) <= objects
  }

  /** Each of the first `n` statements finds what it needs in `base` or among earlier statements' objects. */
  ghost predicate Ready(shapes: Shapes, base: set<Object>, stmts: seq<Statement>, n: nat)
    requires n <= |stmts|
  {
    n > 0 ==> Ready(shapes, base, stmts, n - 1) && Needs(stmts[n - 1]) <= base + GivesAll(shapes, stmts, n - 1)
  }

  lemma ExecStep(shapes: Shapes, objects: set<Object>, s: Statement)
    requires Plain(shapes) && WellShaped(shapes, objects) && Needs(s) <= objects
    ensures Exec(shapes, objects, s) == Some(objects + Gives(shapes, s))
    ensures WellShaped(shapes, objects + Gives(shapes, s))
  {
    match s
    case CreateTable(t) => if Tbl(t) in objects { assert objects + Gives(shapes, s) == objects; }
    case AddColumn(t, c) => if Col(t, c) in objects { assert objects + Gives(shapes, s) == objects; }
    case CreateIndex(name, _, _) => if Idx(name) in objects { assert objects + Gives(shapes, s) == objects; }
  }

  lemma PreparedStep(shapes: Shapes, objects: set<Object>, base: set<Object>, given: set<Object>, s: Statement)
    requires Plain(shapes) && WellShaped(shapes, objects + given) && base <= objects && Needs(s) <= base + given
    ensures Exec(shapes, objects + given, s) == Some(objects + (given + Gives(shapes, s)))
    ensures WellShaped(shapes, objects + (given + Gives(shapes, s)))
  {
    ExecStep(shapes, objects + given, s);
    assert objects + given + Gives(shapes, s) == objects + (given + Gives(shapes, s));
  }

  /** Prepared statements add exactly their objects to any well-shaped schema that holds what they rest on. */
  lemma {:induction false} ExecPrepared(shapes: Shapes, objects: set<Object>, base: set<Object>, stmts: seq<Statement>,
                                        n: nat)
    requires Plain(shapes) && n <= |stmts| && WellShaped(shapes, objects) && base <= objects
    requires Ready(shapes, base, stmts, n)
    ensures ExecAll(shapes, objects, stmts, n) == Some(objects + GivesAll(shapes, stmts, n))
    ensures WellShaped(shapes, objects + GivesAll(shapes, stmts, n))
    decreases n
  {
    if n == 0 {
      assert objects + {} == objects;
    } else {
      ExecPrepared(shapes, objects, base, stmts, n - 1);
      PreparedStep(shapes, objects, base, GivesAll(shapes, stmts, n - 1), stmts[n - 1]);
    }
  }

  lemma Gathered(shapes: Shapes, stmts: seq<Statement>, n: nat, s: Statement)
    requires n <= |stmts| && s in stmts[..n]
    ensures Gives(shapes, s) <= GivesAll(shapes, stmts, n)
  {
    if stmts[n - 1] != s { Gathered(shapes, stmts, n - 1, s); }
  }

  lemma {:induction false} GivenBySome(shapes: Shapes, stmts: seq<Statement>, n: nat, o: Object) returns (i: nat)
    requires n <= |stmts| && o in GivesAll(shapes, stmts, n)
    ensures i < n && o in Gives(shapes, stmts[i])
    decreases n
  {
    if o in Gives(shapes, stmts[n - 1]) { i := n - 1; } else { i := GivenBySome(shapes, stmts, n - 1, o); }
  }

  lemma {:induction false} GivenAreThere(shapes: Shapes, objects: set<Object>, stmts: seq<Statement>, n: nat)
    requires n <= |stmts| && WellShaped(shapes, objects)
    requires forall i :: 0 <= i < n ==>
               && !stmts[i].AddColumn?
               && (stmts[i].CreateTable? ==> Tbl(stmts[i].t) in objects)
               && (stmts[i].CreateIndex? ==> Idx(stmts[i].name) in objects)
    ensures GivesAll(shapes, stmts, n) <= objects
    decreases n
  {
    if n > 0 { GivenAreThere(shapes, objects, stmts, n - 1); }
  }

  // ----- the ladder -----

  /** `core` are the tables the bootstrap script must have created; version 1 is that script. */
  datatype Ladder = Ladder(shapes: Shapes, statements: nat -> seq<Statement>, required: nat -> set<Object>,
                           core: set<Table>, latest: nat)

  /** Everything version `v` gives. */
  function VersionGives(l: Ladder, v: nat): set<Object> {
    GivesAll(l.shapes, l.statements(v), |l.statements(v)|)
  }

  /** Everything versions 1 to `v` provide. */
  function Provided(l: Ladder, v: nat): set<Object> {
    if v == 0 then {} else Provided(l, v - 1) + VersionGives(l, v)
  }

  /** Version `v` rests on the versions before it and provides what it is checked for. */
  ghost predicate SoundAt(l: Ladder, v: nat) {
    v > 0
    && Ready(l.shapes, Provided(l, v - 1), l.statements(v), |l.statements(v)|)
    && (v >= 2 ==> l.required(v) <= Provided(l, v))
  }

  /** What makes a ladder usable. */
  ghost predicate Sound(l: Ladder) {
    && Plain(l.shapes) && 1 <= l.latest && l.statements(1) != []
    && (forall v :: 1 <= v <= l.latest ==> SoundAt(l, v))
    && (forall t :: t in l.core ==> Tbl(t) in Provided(l, 1))
  }

  datatype Db = Db(objects: set<Object>, versions: set<nat>)

  ghost function MaxVersion(versions: set<nat>): (m: nat)
    ensures versions == {} ==> m == 0
    ensures versions != {} ==> m in versions
    ensures forall v :: v in versions ==> v <= m
  {
    if versions == {} then 0
    else
      var v :| v in versions;
      var m := MaxVersion(versions - {v});
      assert forall w :: w in versions ==> w == v || w in versions - {v};
      if v > m then v else m
  }


  predicate CoreComplete(l: Ladder, db: Db) { forall t :: t in l.core ==> Tbl(t) in db.objects }

  /** The bootstrap script and its version row, when a core table is missing. */
  function Bootstrapped(l: Ladder, db: Db): Option<Db> {
    if CoreComplete(l, db) then Some(db)
    else
      var objects := ExecAll(l.shapes, db.objects, l.statements(1), |l.statements(1)|);
      if objects.None? then None else Some(Db(objects.value, db.versions + {1}))
  }

  /** One version, all or nothing. */
  function RunVersion(l: Ladder, db: Db, v: nat): Option<Db> {
    var objects := ExecAll(l.shapes, db.objects, l.statements(v), |l.statements(v)|);
    if objects.None? || !(l.required(v) <= objects.value) then None else Some(Db(objects.value, {v}))
  }

  function RunFrom(l: Ladder, db: Db, v: nat): Option<Db>
    decreases l.latest + 1 - v
  {
    if v > l.latest then Some(db)
    else
      var next := RunVersion(l, db, v);
      if next.None? then None else RunFrom(l, next.value, v + 1)
  }

  function FirstPending(current: nat): nat { if current < 2 then 2 else current + 1 }

  /** The ladder when nothing fails. */
  ghost function Migrated(l: Ladder, db: Db): Option<Db> {
    var b := Bootstrapped(l, db);
    if b.None? then None else RunFrom(l, b.value, FirstPending(MaxVersion(b.value.versions)))
  }

  // ----- what a sound ladder achieves -----

  lemma {:induction false} ProvidedGrows(l: Ladder, w: nat, v: nat)
    requires w <= v
    ensures Provided(l, w) <= Provided(l, v)
    decreases v
  {
    if w < v { ProvidedGrows(l, w, v - 1); }
  }

  /** What one statement of version `w` gives is provided from `w` on. */
  lemma {:induction false} ProvidedBy(l: Ladder, w: nat, v: nat, s: Statement)
    requires 1 <= w <= v && s in l.statements(w)
    ensures Gives(l.shapes, s) <= Provided(l, v)
    decreases v
  {
    if w < v {
      ProvidedBy(l, w, v - 1, s);
    } else {
      assert l.statements(w)[..|l.statements(w)|] == l.statements(w);
      Gathered(l.shapes, l.statements(w), |l.statements(w)|, s);
    }
  }

  lemma TableStays(l: Ladder, w: nat, v: nat, t: Table)
    requires 1 <= w <= v && CreateTable(t) in l.statements(w)
    ensures Tbl(t) in Provided(l, v) && l.shapes(t) <= Provided(l, v)
  {
    ProvidedBy(l, w, v, CreateTable(t));
    assert Tbl(t) in Gives(l.shapes, CreateTable(t));
  }

  lemma ColumnStays(l: Ladder, w: nat, v: nat, t: Table, c: string)
    requires 1 <= w <= v && AddColumn(t, c) in l.statements(w)
    ensures Col(t, c) in Provided(l, v)
  {
    ProvidedBy(l, w, v, AddColumn(t, c));
    assert Col(t, c) in Gives(l.shapes, AddColumn(t, c));
  }

  lemma IndexStays(l: Ladder, w: nat, v: nat, name: string, t: Table, columns: set<string>)
    requires 1 <= w <= v && CreateIndex(name, t, columns) in l.statements(w)
    ensures Idx(name) in Provided(l, v)
  {
    ProvidedBy(l, w, v, CreateIndex(name, t, columns));
    assert Idx(name) in Gives(l.shapes, CreateIndex(name, t, columns));
  }

  lemma UnionWith(objects: set<Object>, low: set<Object>, more: set<Object>)
    requires low <= objects
    ensures objects + more == objects + (low + more)
  {}

  lemma UnionTwice(objects: set<Object>, low: set<Object>, high: set<Object>)
    requires low <= high
    ensures objects + low + high == objects + high
  {}

  /** One version: it adds exactly what is provided up to it and records itself. */
  lemma VersionRuns(l: Ladder, db: Db, v: nat)
    requires Sound(l) && 2 <= v <= l.latest && WellShaped(l.shapes, db.objects) && Provided(l, v - 1) <= db.objects
    ensures RunVersion(l, db, v) == Some(Db(db.objects + Provided(l, v), {v}))
    ensures WellShaped(l.shapes, db.objects + Provided(l, v))
  {
    assert SoundAt(l, v);
    var stmts := l.statements(v);
    ExecPrepared(l.shapes, db.objects, Provided(l, v - 1), stmts, |stmts|);
    UnionWith(db.objects, Provided(l, v - 1), VersionGives(l, v));
  }

  lemma {:induction false} LadderRuns(l: Ladder, db: Db, v: nat)
    requires Sound(l) && 2 <= v <= l.latest + 1 && WellShaped(l.shapes, db.objects) && Provided(l, v - 1) <= db.objects
    ensures RunFrom(l, db, v) == Some(if v > l.latest then db else Db(db.objects + Provided(l, l.latest), {l.latest}))
    decreases l.latest + 1 - v
  {
    if v <= l.latest {
      VersionRuns(l, db, v);
      LadderRuns(l, Db(db.objects + Provided(l, v), {v}), v + 1);
      ProvidedGrows(l, v, l.latest);
      UnionTwice(db.objects, Provided(l, v), Provided(l, l.latest));
    }
  }

  lemma BootstrapRuns(l: Ladder, db: Db)
    requires Sound(l) && WellShaped(l.shapes, db.objects) && !CoreComplete(l, db)
    ensures Bootstrapped(l, db) == Some(Db(db.objects + Provided(l, 1), db.versions + {1}))
    ensures WellShaped(l.shapes, db.objects + Provided(l, 1))
  {
    assert SoundAt(l, 1);
    var stmts := l.statements(1);
    assert Provided(l, 0) == {};
    ExecPrepared(l.shapes, db.objects, Provided(l, 0), stmts, |stmts|);
    assert Provided(l, 1) == VersionGives(l, 1);
  }

  /** A schema complete up to version `v`; anything later may be there already if it has its shape. */
  ghost predicate CompleteTo(l: Ladder, db: Db, v: nat) {
    WellShaped(l.shapes, db.objects) && Provided(l, v) <= db.objects && db.versions == {v}
  }

  /** What the ladder may start from: an unfinished bootstrap, or a schema complete up to its recorded version. */
  ghost predicate Startable(l: Ladder, db: Db) {
    && WellShaped(l.shapes, db.objects)
    && if CoreComplete(l, db) then exists v :: 1 <= v <= l.latest && CompleteTo(l, db, v) else db.versions <= {1}
  }

  lemma OnlyVersion(v: nat)
    ensures MaxVersion({v}) == v
  {
    assert v in {v};
  }

  lemma CompleteMigrates(l: Ladder, db: Db, v: nat)
    requires Sound(l) && 1 <= v <= l.latest && CompleteTo(l, db, v) && CoreComplete(l, db)
    ensures Migrated(l, db) == Some(Db(db.objects + Provided(l, l.latest), {l.latest}))
  {
    OnlyVersion(v);
    LadderRuns(l, db, FirstPending(v));
    if v == l.latest { assert db.objects + Provided(l, l.latest) == db.objects; }
  }

  lemma IncompleteMigrates(l: Ladder, db: Db)
    requires Sound(l) && WellShaped(l.shapes, db.objects) && !CoreComplete(l, db) && db.versions <= {1}
    ensures Migrated(l, db) == Some(Db(db.objects + Provided(l, l.latest), {l.latest}))
  {
    BootstrapRuns(l, db);
    assert db.versions + {1} == {1};
    OnlyVersion(1);
    LadderRuns(l, Db(db.objects + Provided(l, 1), {1}), 2);
    ProvidedGrows(l, 1, l.latest);
    UnionTwice(db.objects, Provided(l, 1), Provided(l, l.latest));
  }

  /**
   From every startable schema the ladder ends at the latest version with every
   provided object, one version row, and everything that was there before.
   */
  lemma LadderCompletes(l: Ladder, db: Db)
    requires Sound(l) && Startable(l, db)
    ensures Migrated(l, db) == Some(Db(db.objects + Provided(l, l.latest), {l.latest}))
  {
    if CoreComplete(l, db) {
      var v :| 1 <= v <= l.latest && CompleteTo(l, db, v);
      CompleteMigrates(l, db, v);
    } else {
      IncompleteMigrates(l, db);
    }
  }

  /** Running the ladder again changes nothing. */
  lemma RerunIsNoOp(l: Ladder, db: Db)
    requires Sound(l) && CompleteTo(l, db, l.latest)
    ensures Migrated(l, db) == Some(db)
  {
    ProvidedGrows(l, 1, l.latest);
    CompleteMigrates(l, db, l.latest);
    assert db.objects + Provided(l, l.latest) == db.objects;
  }

  /**
   Completeness is needed: with a core table dropped from a latest-version
   schema the bootstrap script re-creates it in its first shape, adds a second
   version row, and no later version runs again.
   */
  lemma DroppedCoreTableIsNotRepaired(l: Ladder, db: Db)
    requires Sound(l) && WellShaped(l.shapes, db.objects) && !CoreComplete(l, db) && l.latest >= 2
    requires db.versions == {l.latest}
    ensures Migrated(l, db) == Some(Db(db.objects + Provided(l, 1), {1, l.latest}))
  {
    BootstrapRuns(l, db);
    var versions := db.versions + {1};
    assert versions == {1, l.latest};
    assert MaxVersion(versions) == l.latest by { assert l.latest in versions; }
    assert FirstPending(l.latest) == l.latest + 1;
  }

  lemma {:induction false} ExecAddsOnly(shapes: Shapes, objects: set<Object>, stmts: seq<Statement>, n: nat)
    requires n <= |stmts| && ExecAll(shapes, objects, stmts, n).Some?
    ensures ExecAll(shapes, objects, stmts, n).value <= objects + GivesAll(shapes, stmts, n)
    decreases n
  {
    if n > 0 { ExecAddsOnly(shapes, objects, stmts, n - 1); }
  }

  /** Versions from `v` on bring in only what their own statements give. */
  lemma {:induction false} LaterVersionsAddOnly(l: Ladder, db: Db, v: nat, x: Object)
    requires RunFrom(l, db, v).Some? && x !in db.objects
    requires forall w :: v <= w <= l.latest ==> x !in VersionGives(l, w)
    ensures x !in RunFrom(l, db, v).value.objects
    decreases l.latest + 1 - v
  {
    if v <= l.latest {
      ExecAddsOnly(l.shapes, db.objects, l.statements(v), |l.statements(v)|);
      assert x !in VersionGives(l, v);
      LaterVersionsAddOnly(l, RunVersion(l, db, v).value, v + 1, x);
    }
  }

  // ----- which schemas the ladder completes -----

  /** The version row says `v`; a missing row counts as version 1. */
  predicate Recorded(db: Db, v: nat) { db.versions == {v} || (v == 1 && db.versions == {}) }

  /** What the version loop starts from: the bootstrap script runs only when a core table is missing. */
  function StartObjects(l: Ladder, db: Db): set<Object> {
    db.objects + if CoreComplete(l, db) then {} else Provided(l, 1)
  }

  function StartVersions(l: Ladder, db: Db): set<nat> { db.versions + if CoreComplete(l, db) then {} else {1} }

  lemma FirstPendingOf(l: Ladder, db: Db, v: nat)
    requires Recorded(db, v) && v >= 1
    ensures FirstPending(MaxVersion(StartVersions(l, db))) == if v == 1 then 2 else v + 1
  {
    var versions := StartVersions(l, db);
    assert forall w :: w in versions ==> w == v || w == 1;
    assert v in versions || versions == {};
  }

  /** The loop of a completed schema adds exactly what is provided and not there yet. */
  lemma ResumableMigrates(l: Ladder, db: Db, v: nat)
    requires Sound(l) && WellShaped(l.shapes, db.objects) && Recorded(db, v) && 1 <= v <= l.latest && 2 <= l.latest
    requires Provided(l, v) <= StartObjects(l, db)
    ensures Migrated(l, db) == Some(Db(db.objects + Provided(l, l.latest),
                                       if v == l.latest then StartVersions(l, db) else {l.latest}))
  {
    FirstPendingOf(l, db, v);
    var start := Db(StartObjects(l, db), StartVersions(l, db));
    if CoreComplete(l, db) {
      assert start == db;
    } else {
      BootstrapRuns(l, db);
    }
    LadderRuns(l, start, FirstPending(MaxVersion(start.versions)));
    ProvidedGrows(l, 1, l.latest);
    ProvidedGrows(l, v, l.latest);
    assert start.objects + Provided(l, l.latest) == db.objects + Provided(l, l.latest);
    if v == l.latest { assert start.objects == db.objects + Provided(l, l.latest); }
  }

  /** What is missing at the start, and that no later version gives, is missing at the end. */
  lemma MissingStaysMissing(l: Ladder, db: Db, v: nat, x: Object)
    requires Recorded(db, v) && v >= 1 && Migrated(l, db).Some? && x !in StartObjects(l, db)
    requires forall w :: v < w <= l.latest ==> x !in VersionGives(l, w)
    ensures x !in Migrated(l, db).value.objects
  {
    FirstPendingOf(l, db, v);
    var start := Bootstrapped(l, db).value;
    if !CoreComplete(l, db) {
      ExecAddsOnly(l.shapes, db.objects, l.statements(1), |l.statements(1)|);
      assert Provided(l, 1) == Provided(l, 0) + VersionGives(l, 1);
    }
    assert start.versions == StartVersions(l, db);
    LaterVersionsAddOnly(l, start, FirstPending(MaxVersion(start.versions)), x);
  }

  // ----- the runner -----

  function AfterVersion(l: Ladder, before: Db, v: nat): Db { Db(before.objects + Provided(l, v), {v}) }

  /** The script's steps: its first table, then the version row, then every other statement. */
  function ScriptSteps(l: Ladder): nat { |l.statements(1)| + 1 }

  /** The schema after `n` steps of the script. */
  function InScript(l: Ladder, before: Db, n: nat): Db
    requires l.statements(1) != [] && n <= ScriptSteps(l)
  {
    Db(before.objects + GivesAll(l.shapes, l.statements(1), if n <= 1 then n else n - 1),
       if n <= 1 then before.versions else before.versions + {1})
  }

  /**
   Where a run that failed at version `v` leaves the schema: exactly after the
   version before, or inside the script.
   */
  ghost predicate StoppedAt(l: Ladder, before: Db, v: nat, after: Db)
    requires l.statements(1) != []
  {
    if v == 1 then !CoreComplete(l, before) && exists n: nat :: n < ScriptSteps(l) && after == InScript(l, before, n)
    else 2 <= v <= l.latest && after == AfterVersion(l, before, v - 1)
  }

  class MigrationStore {
    const l: Ladder
    var db: Db

    constructor (l: Ladder, db: Db)
      ensures this.l == l && this.db == db
    {
      this.l, this.db := l, db;
    }

    method SchemaVersion() returns (m: nat)
      ensures m == MaxVersion(db.versions)
    {
      m := 0;
      var rest := db.versions;
      while rest != {}
        invariant rest <= db.versions && (forall v :: v in db.versions ==> v in rest || v <= m)
        invariant m == 0 || m in db.versions
        decreases |rest|
      {
        var v :| v in rest;
        if v > m { m := v; }
        rest := rest - {v};
      }
    }

    /** One version in a transaction: any failing statement, check or commit restores the snapshot. */
    method RunMigration(v: nat) returns (ok: bool)
      modifies this
      ensures ok ==> RunVersion(l, old(db), v) == Some(db)
      ensures !ok ==> db == old(db)
    {
      var snapshot, stmts := db, l.statements(v);
      for i := 0 to |stmts|
        invariant ExecAll(l.shapes, snapshot.objects, stmts, i) == Some(db.objects) && db.versions == snapshot.versions
      {
        var fails: bool := *;
        var next := Exec(l.shapes, db.objects, stmts[i]);
        if fails || next.None? {
          db := snapshot;
          return false;
        }
        db := db.(objects := next.value);
      }
      var committed: bool := *;
      if !committed || !(l.required(v) <= db.objects) {
        db := snapshot;
        return false;
      }
      db := db.(versions := {v});
      return true;
    }

    /** One statement of the script, committed on its own. */
    method RunStep(i: nat) returns (ok: bool)
      requires i < |l.statements(1)| && Exec(l.shapes, db.objects, l.statements(1)[i]).Some?
      modifies this
      ensures ok ==> db == Db(Exec(l.shapes, old(db).objects, l.statements(1)[i]).value, old(db).versions)
      ensures !ok ==> db == old(db)
    {
      var fails: bool := *;
      if fails { return false; }
      db := db.(objects := Exec(l.shapes, db.objects, l.statements(1)[i]).value);
      return true;
    }

    /** The bootstrap script commits as it goes; its second step records version 1. */
    method RunScript() returns (n: nat)
      requires Sound(l) && WellShaped(l.shapes, db.objects)
      modifies this
      ensures n <= ScriptSteps(l) && db == InScript(l, old(db), n)
    {
      n := 0;
      ScriptRuns(l, db, 0);
      var i := 0;
      while i < |l.statements(1)|
        invariant i <= |l.statements(1)| && n == if i == 0 then 0 else i + 1
        invariant db == InScript(l, old(db), n)
        invariant ExecAll(l.shapes, old(db).objects, l.statements(1), i) == Some(db.objects)
      {
        ScriptRuns(l, old(db), i + 1);
        var done := RunStep(i);
        if !done { return; }
        n := n + 1;
        i := i + 1;
        if i == 1 {
          var fails: bool := *;
          if fails { return; }
          db := db.(versions := db.versions + {1});
          n := 2;
        }
      }
    }

    /**
     Bootstrap if needed, then each pending version.  Success is the migrated
     schema; a failure at version `failedAt` leaves exactly the state after the
     version before it, or the script's prefix; nothing is ever lost.
     */
    method Migrate() returns (ok: bool, failedAt: nat)
      requires Sound(l) && Startable(l, db)
      modifies this
      ensures ok ==> Migrated(l, old(db)) == Some(db)
      ensures !ok ==> StoppedAt(l, old(db), failedAt, db)
      ensures old(db).objects <= db.objects
    {
      LadderCompletes(l, db);
      if !CoreComplete(l, db) {
        var n := RunScript();
        if n < ScriptSteps(l) { return false, 1; }
        IncompleteStart(l, old(db));
      }
      var current := SchemaVersion();
      StartVersion(l, old(db), db, current);
      var v := FirstPending(current);
      while v <= l.latest
        invariant 2 <= v <= l.latest + 1
        invariant db == AfterVersion(l, old(db), v - 1)
        invariant WellShaped(l.shapes, db.objects)
        decreases l.latest + 1 - v
      {
        var done := RunMigration(v);
        if !done { return false, v; }
        AfterNext(l, old(db), v);
        v := v + 1;
      }
      return true, 0;
    }
  }

  /** The script's first `n` statements always run. */
  lemma ScriptRuns(l: Ladder, db: Db, n: nat)
    requires Sound(l) && WellShaped(l.shapes, db.objects) && n <= |l.statements(1)|
    ensures ExecAll(l.shapes, db.objects, l.statements(1), n)
            == Some(db.objects + GivesAll(l.shapes, l.statements(1), n))
  {
    assert SoundAt(l, 1);
    assert Provided(l, 0) == {};
    ReadyPrefix(l.shapes, {}, l.statements(1), n, |l.statements(1)|);
    ExecPrepared(l.shapes, db.objects, {}, l.statements(1), n);
  }

  lemma {:induction false} ReadyPrefix(shapes: Shapes, base: set<Object>, stmts: seq<Statement>, m: nat, n: nat)
    requires m <= n <= |stmts| && Ready(shapes, base, stmts, n)
    ensures Ready(shapes, base, stmts, m)
    decreases n
  {
    if m < n { ReadyPrefix(shapes, base, stmts, m, n - 1); }
  }

  lemma IncompleteStart(l: Ladder, before: Db)
    requires Sound(l) && WellShaped(l.shapes, before.objects) && !CoreComplete(l, before) && before.versions <= {1}
    ensures InScript(l, before, ScriptSteps(l)) == AfterVersion(l, before, 1)
    ensures WellShaped(l.shapes, before.objects + Provided(l, 1))
  {
    BootstrapRuns(l, before);
    assert Provided(l, 0) == {};
    assert Provided(l, 1) == VersionGives(l, 1);
  }

  /** Where the version loop starts. */
  lemma StartVersion(l: Ladder, before: Db, now: Db, current: nat)
    requires Sound(l) && Startable(l, before) && current == MaxVersion(now.versions)
    requires if CoreComplete(l, before) then now == before else now == AfterVersion(l, before, 1)
    ensures 1 <= current <= l.latest && now == AfterVersion(l, before, current)
  {
    if CoreComplete(l, before) {
      var v :| 1 <= v <= l.latest && CompleteTo(l, before, v);
      OnlyVersion(v);
      assert before.objects + Provided(l, v) == before.objects;
    } else {
      OnlyVersion(1);
    }
  }

  lemma AfterNext(l: Ladder, before: Db, v: nat)
    requires Sound(l) && 2 <= v <= l.latest && WellShaped(l.shapes, AfterVersion(l, before, v - 1).objects)
    ensures RunVersion(l, AfterVersion(l, before, v - 1), v) == Some(AfterVersion(l, before, v))
    ensures WellShaped(l.shapes, AfterVersion(l, before, v).objects)
  {
    VersionRuns(l, AfterVersion(l, before, v - 1), v);
    ProvidedGrows(l, v - 1, v);
    UnionTwice(before.objects, Provided(l, v - 1), Provided(l, v));
  }
}
