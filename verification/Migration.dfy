/** The migration ladder's own statements and version checks, and that it is sound. */
module Migration {
  import opened Wrappers
  import opened MigrationLadder

  const BUNDLE_KEY := ForeignKey(ImportedBundles, [("bundle_id", "bundle_id")])
  const SESSION_KEY := ForeignKey(ImportedSessions, [("bundle_id", "bundle_id"), ("session_export_id", "export_id")])

  /** What a table comes with when the ladder creates it. */
  function PartsOf(t: Table): set<Object> {
    match t
    case SchemaVersion => Cols(t, {"version"})
    case Projects => Cols(t, {"id", "path", "name", "first_seen_ms", "last_seen_ms", "git_remote"})
    case Sessions =>
      Cols(t, {"id", "project_id", "source_id", "native_id", "started_ms", "ended_ms", "model",
               "git_branch", "raw_path", "record_count"})
    case Turns =>
      Cols(t, {"id", "session_id", "source_id", "timestamp_ms", "role", "model", "content_fingerprint",
               "tool_name", "file_paths_json", "error_text", "raw_meta_json"})
    case RouterRequests =>
      Cols(t, {"id", "source_id", "native_id", "timestamp_ms", "provider", "model", "connection_id",
               "status", "cost_usd", "prompt_tokens", "completion_tokens", "endpoint",
               "linked_session_id", "link_confidence"})
    case IntentEpisodes =>
      Cols(t, {"id", "project_id", "started_ms", "ended_ms", "original_intent",
               "acceptance_criteria_json", "completion_status", "completion_evidence_json",
               "drift_type", "pivot_point_ms"})
    case Findings =>
      Cols(t, {"id", "project_id", "category", "severity", "title", "detail", "evidence_json",
               "confidence", "created_ms", "resolved_ms"})
    case PromptArtifacts =>
      Cols(t, {"id", "project_id", "prompt_type", "stable_hash", "content", "created_ms", "archived_ms"})
    case Watermark => Cols(t, {"source_id", "last_ms", "updated_ms"})
    case Runs =>
      Cols(t, {"id", "started_ms", "ended_ms", "status", "source_counts_json", "warning_count",
               "error_count", "log_path"})
    case AgentCalls =>
      Cols(t, {"id", "run_id", "agent_type", "model", "started_ms", "ended_ms", "status", "cost_usd",
               "prompt_tokens", "completion_tokens", "input_fingerprint", "output_json", "error_text"})
    case AgentEvents =>
      Cols(t, {"id", "run_id", "agent_type", "call_id", "ts_ms", "topic", "level", "message",
               "fields_json"})
    case SkillPins => Cols(t, {"skill_name", "content_sha256", "pinned_ms", "path"})
    case FindingObservations => Cols(t, {"finding_id", "run_id", "observed_ms", "resolved"})
    case RunAnalyzedProjects => Cols(t, {"run_id", "project_id", "analyzed_ms"})
    case ProjectGitSnapshots =>
      Cols(t, {"run_id", "project_id", "captured_ms", "status_porcelain", "recent_log_json",
               "diff_stat", "error"})
    case ImportedBundles =>
      Cols(t, {"bundle_id", "schema_version", "exported_ms", "imported_ms", "source_file",
               "project_name", "session_count", "turn_count", "payload_sha256"})
    case ImportedSessions =>
      Cols(t, {"bundle_id", "export_id", "started_ms", "ended_ms", "record_count"}) + {Fk(t, BUNDLE_KEY)}
    case ImportedTurns =>
      Cols(t, {"bundle_id", "export_id", "session_export_id", "timestamp_ms"}) + {Fk(t, SESSION_KEY)}
    case SpendLedger => Cols(t, {"run_id", "started_ms", "cost_usd", "model", "call_count"})
    case SourceCadence => Cols(t, {"source_id", "median_gap_ms", "sample_size", "computed_ms"})
    case OtherTable(_) => {}
  }

  const V1_REQUIRED := {SchemaVersion, Projects, Sessions, Turns, RouterRequests, IntentEpisodes, Findings,
                        PromptArtifacts, Watermark, Runs}

  const BOOTSTRAP: seq<Statement> :=
    [CreateTable(SchemaVersion), CreateTable(Projects), CreateTable(Sessions), CreateTable(Turns),
     CreateTable(RouterRequests),
     CreateTable(IntentEpisodes), CreateTable(Findings), CreateTable(PromptArtifacts), CreateTable(Watermark),
     CreateTable(Runs),
     CreateIndex("idx_turns_session", Turns, {"session_id"}), CreateIndex("idx_turns_ts", Turns, {"timestamp_ms"}),
     CreateIndex("idx_sessions_project", Sessions, {"project_id"}),
     CreateIndex("idx_router_ts", RouterRequests, {"timestamp_ms"}),
     CreateIndex("idx_findings_project", Findings, {"project_id"}),
     CreateIndex("idx_episodes_project", IntentEpisodes, {"project_id"})]

  const LATEST: nat := 10

  /** The statements of version `v`; version 1 is the bootstrap script. */
  function Statements(v: nat): seq<Statement> {
    if v == 1 then BOOTSTRAP
    else if v == 2 then
      [AddColumn(Findings, "provenance"), AddColumn(Findings, "state"), AddColumn(Findings, "dismissal_reason"),
       AddColumn(PromptArtifacts, "chain_json"), AddColumn(PromptArtifacts, "health_json"),
       AddColumn(Runs, "lookback_days"), AddColumn(Sessions, "platform"),
       CreateTable(AgentCalls), CreateTable(AgentEvents), CreateTable(SkillPins),
       CreateIndex("idx_agent_calls_run", AgentCalls, {"run_id"}),
       CreateIndex("idx_agent_events_run", AgentEvents, {"run_id", "ts_ms"})]
    else if v == 3 then
      [AddColumn(RouterRequests, "link_tier"), AddColumn(RouterRequests, "link_reason"),
       CreateIndex("idx_router_linked", RouterRequests, {"linked_session_id"})]
    else if v == 4 then [AddColumn(PromptArtifacts, "compiler_version")]
    else if v == 5 then
      [CreateTable(FindingObservations), CreateIndex("idx_finding_obs_run", FindingObservations, {"run_id"}),
       CreateIndex("idx_finding_obs_finding", FindingObservations, {"finding_id"}),
       AddColumn(Findings, "dismissed_evidence_sha"), AddColumn(Findings, "dismissed_ms")]
    else if v == 6 then [CreateTable(RunAnalyzedProjects)]
    else if v == 7 then
      [CreateTable(ProjectGitSnapshots),
       CreateIndex("idx_git_snap_project", ProjectGitSnapshots, {"project_id", "captured_ms"})]
    else if v == 8 then
      [CreateTable(ImportedBundles), CreateTable(ImportedSessions), CreateTable(ImportedTurns),
       CreateIndex("idx_imp_turns_session", ImportedTurns, {"bundle_id", "session_export_id"})]
    else if v == 9 then [CreateTable(SpendLedger), CreateIndex("idx_spend_started", SpendLedger, {"started_ms"})]
    else if v == 10 then [CreateTable(SourceCadence)]
    else []
  }

  /** What must exist before version `v` may be recorded. */
  function Required(v: nat): set<Object> {
    (if v >= 2 then ExtensionObjects() else {})
    + (if v >= 4 then {Col(PromptArtifacts, "compiler_version")} else {})
    + (if v >= 8 then ArchiveObjects() else {})
    + (if v >= 9 then {Tbl(SpendLedger), Idx("idx_spend_started")} else {})
    + (if v >= 10 then CadenceObjects() else {})
  }

  function ExtensionObjects(): set<Object> {
    {Tbl(AgentCalls), Tbl(AgentEvents), Tbl(SkillPins),
     Tbl(Findings), Col(Findings, "provenance"), Col(Findings, "state"),
     Tbl(PromptArtifacts), Col(PromptArtifacts, "chain_json"), Col(PromptArtifacts, "health_json"),
     Tbl(Runs), Col(Runs, "lookback_days"), Tbl(Sessions), Col(Sessions, "platform")}
  }

  function ArchiveObjects(): set<Object> {
    {Tbl(ImportedBundles), Tbl(ImportedSessions), Tbl(ImportedTurns), Col(ImportedBundles, "payload_sha256"),
     Idx("idx_imp_turns_session"), Fk(ImportedTurns, SESSION_KEY), Fk(ImportedSessions, BUNDLE_KEY)}
  }

  function CadenceObjects(): set<Object> {
    {Tbl(SourceCadence), Col(SourceCadence, "source_id"), Col(SourceCadence, "median_gap_ms"),
     Col(SourceCadence, "sample_size"), Col(SourceCadence, "computed_ms")}
  }

  const VERSIONS := Ladder(PartsOf, Statements, Required, V1_REQUIRED, LATEST)

  lemma PartsOfOneTable(t: Table, o: Object)
    requires o in PartsOf(t)
    ensures (o.Col? || o.Fk?) && o.t == t
  {}

  lemma PartsArePlain()
    ensures Plain(PartsOf)
  {
    forall t, u ensures Tbl(u) !in PartsOf(t) {
      if Tbl(u) in PartsOf(t) { PartsOfOneTable(t, Tbl(u)); }
    }
  }

  // ----- every statement finds what it needs -----

  /** A statement that needs only a table and columns created by an earlier statement of the same list. */
  lemma NeedsOwn(base: set<Object>, stmts: seq<Statement>, i: nat, k: nat)
    requires i < |stmts| && k < i && stmts[k].CreateTable?
    requires stmts[i].CreateIndex? && stmts[i].t == stmts[k].t
    requires Cols(stmts[i].t, stmts[i].columns) <= PartsOf(stmts[i].t)
    ensures Needs(stmts[i]) <= base + GivesAll(PartsOf, stmts, i)
  {
    assert stmts[k] == stmts[..i][k];
    Gathered(PartsOf, stmts, i, stmts[k]);
  }

  lemma NeedsEarlier(l: Ladder, v: nat, s: Statement, w: nat, t: Table, more: set<Object>)
    requires 1 <= w < v && CreateTable(t) in l.statements(w)
    requires Needs(s) <= {Tbl(t)} + l.shapes(t)
    ensures Needs(s) <= Provided(l, v - 1) + more
  {
    ProvidedBy(l, w, v - 1, CreateTable(t));
  }

  lemma {:induction false} ReadyEach(base: set<Object>, stmts: seq<Statement>, n: nat)
    requires n <= |stmts|
    requires forall i {:trigger stmts[i]} :: 0 <= i < n ==> Needs(stmts[i]) <= base + GivesAll(PartsOf, stmts, i)
    ensures Ready(PartsOf, base, stmts, n)
    decreases n
  {
    if n > 0 { ReadyEach(base, stmts, n - 1); }
  }

  lemma BootstrapReady(base: set<Object>)
    ensures Ready(PartsOf, base, BOOTSTRAP, |BOOTSTRAP|)
  {
    var stmts := BOOTSTRAP;
    forall i | 0 <= i < |stmts| ensures Needs(stmts[i]) <= base + GivesAll(PartsOf, stmts, i) {
      if i >= 10 {
        var table := if i <= 11 then 3 else if i == 12 then 2 else if i == 13 then 4 else if i == 14 then 6 else 5;
        NeedsOwn(base, stmts, i, table);
      }
    }
    ReadyEach(base, stmts, |stmts|);
  }

  lemma BootstrapCreates(t: Table)
    requires t in V1_REQUIRED
    ensures CreateTable(t) in BOOTSTRAP
  {
    var stmts := BOOTSTRAP;
    var k := if t == SchemaVersion then 0 else if t == Projects then 1 else if t == Sessions then 2
        else if t == Turns then 3
             else if t == RouterRequests then 4 else if t == IntentEpisodes then 5 else if t == Findings then 6
             else if t == PromptArtifacts then 7 else if t == Watermark then 8 else 9;
    assert stmts[k] == CreateTable(t);
  }

  /** Columns are only added to version-1 tables. */
  lemma ColumnTargets(v: nat, i: nat)
    requires 2 <= v <= LATEST && i < |Statements(v)| && Statements(v)[i].AddColumn?
    ensures Statements(v)[i].t in V1_REQUIRED
  {}

  /** An index stands on an earlier table of its own version, except in version 3. */
  lemma IndexTargets(v: nat, i: nat) returns (k: nat)
    requires 2 <= v <= LATEST && v != 3 && i < |Statements(v)| && Statements(v)[i].CreateIndex?
    ensures k < i && Statements(v)[k] == CreateTable(Statements(v)[i].t)
    ensures Cols(Statements(v)[i].t, Statements(v)[i].columns) <= PartsOf(Statements(v)[i].t)
  {
    k := if v == 2 then (if i == 10 then 7 else 8) else if v == 8 then 2 else 0;
  }

  lemma LinkIndex(i: nat)
    requires i < |Statements(3)| && Statements(3)[i].CreateIndex?
    ensures Needs(Statements(3)[i]) <= {Tbl(RouterRequests)} + PartsOf(RouterRequests)
  {}

  lemma StatementReady(l: Ladder, v: nat, i: nat)
    requires l == VERSIONS && 2 <= v <= LATEST && i < |Statements(v)|
    ensures Needs(Statements(v)[i]) <= Provided(l, v - 1) + GivesAll(PartsOf, Statements(v), i)
  {
    var s := Statements(v)[i];
    if s.AddColumn? {
      ColumnTargets(v, i);
      BootstrapCreates(s.t);
      NeedsEarlier(l, v, s, 1, s.t, GivesAll(PartsOf, Statements(v), i));
    } else if s.CreateIndex? && v == 3 {
      BootstrapCreates(RouterRequests);
      LinkIndex(i);
      NeedsEarlier(l, v, s, 1, RouterRequests, GivesAll(PartsOf, Statements(v), i));
    } else if s.CreateIndex? {
      var k := IndexTargets(v, i);
      NeedsOwn(Provided(l, v - 1), Statements(v), i, k);
    }
  }

  lemma VersionReady(l: Ladder, v: nat)
    requires l == VERSIONS && 1 <= v <= LATEST
    ensures Ready(PartsOf, Provided(l, v - 1), Statements(v), |Statements(v)|)
  {
    if v == 1 {
      BootstrapReady(Provided(l, 0));
    } else {
      forall i | 0 <= i < |Statements(v)|
        ensures Needs(Statements(v)[i]) <= Provided(l, v - 1) + GivesAll(PartsOf, Statements(v), i)
      {
        StatementReady(l, v, i);
      }
      ReadyEach(Provided(l, v - 1), Statements(v), |Statements(v)|);
    }
  }

  // ----- every version provides what it is checked for -----

  /** What version 2 adds and checks for. */
  function TablesOfTwo(): set<Table> { {AgentCalls, AgentEvents, SkillPins} }

  function ColumnsOfTwo(): set<(Table, string)> {
    {(Findings, "provenance"), (Findings, "state"), (PromptArtifacts, "chain_json"), (PromptArtifacts, "health_json"),
     (Runs, "lookback_days"), (Sessions, "platform")}
  }

  lemma VersionTwo()
    ensures forall t | t in TablesOfTwo() :: CreateTable(t) in Statements(2)
    ensures forall c | c in ColumnsOfTwo() :: AddColumn(c.0, c.1) in Statements(2)
  {
    assert Statements(2)[7..10] == [CreateTable(AgentCalls), CreateTable(AgentEvents), CreateTable(SkillPins)];
  }

  lemma LaterVersions()
    ensures AddColumn(PromptArtifacts, "compiler_version") in Statements(4)
    ensures CreateTable(ImportedBundles) in Statements(8) && CreateTable(ImportedSessions) in Statements(8)
    ensures CreateTable(ImportedTurns) in Statements(8)
    ensures CreateIndex("idx_imp_turns_session", ImportedTurns, {"bundle_id", "session_export_id"}) in Statements(8)
    ensures CreateTable(SpendLedger) in Statements(9)
    ensures CreateIndex("idx_spend_started", SpendLedger, {"started_ms"}) in Statements(9)
    ensures CreateTable(SourceCadence) in Statements(10)
  {}

  lemma TablesStay(l: Ladder, w: nat, v: nat, ts: set<Table>)
    requires 1 <= w <= v && forall t | t in ts :: CreateTable(t) in l.statements(w)
    ensures forall t | t in ts :: Tbl(t) in Provided(l, v)
  {
    forall t | t in ts ensures Tbl(t) in Provided(l, v) { TableStays(l, w, v, t); }
  }

  lemma ColumnsStay(l: Ladder, w: nat, v: nat, cs: set<(Table, string)>)
    requires 1 <= w <= v && forall c | c in cs :: AddColumn(c.0, c.1) in l.statements(w)
    ensures forall c | c in cs :: Col(c.0, c.1) in Provided(l, v)
  {
    forall c | c in cs ensures Col(c.0, c.1) in Provided(l, v) { ColumnStays(l, w, v, c.0, c.1); }
  }

  lemma ExtendedTables(l: Ladder, v: nat)
    requires l.statements == Statements && v >= 2
    ensures forall t | t in V1_REQUIRED :: Tbl(t) in Provided(l, v)
  {
    forall t | t in V1_REQUIRED ensures Tbl(t) in Provided(l, v) {
      BootstrapCreates(t);
      TableStays(l, 1, v, t);
    }
  }

  lemma VersionTwoStays(l: Ladder, v: nat)
    requires l.statements == Statements && v >= 2
    ensures forall t | t in TablesOfTwo() :: Tbl(t) in Provided(l, v)
    ensures forall c | c in ColumnsOfTwo() :: Col(c.0, c.1) in Provided(l, v)
  {
    VersionTwo();
    TablesStay(l, 2, v, TablesOfTwo());
    ColumnsStay(l, 2, v, ColumnsOfTwo());
  }

  lemma ExtensionsStay(l: Ladder, v: nat)
    requires l.statements == Statements && v >= 2
    ensures ExtensionObjects() <= Provided(l, v)
  {
    VersionTwoStays(l, v);
    ExtendedTables(l, v);
    forall o | o in ExtensionObjects() ensures o in Provided(l, v) {
      match o
      case Tbl(t) => assert t in TablesOfTwo() || t in V1_REQUIRED;
      case Col(t, c) => assert (t, c) in ColumnsOfTwo();
    }
  }

  /** The keys, and below the columns, the checks ask of created tables. */
  lemma CreatedShapes()
    ensures Fk(ImportedSessions, BUNDLE_KEY) in PartsOf(ImportedSessions)
    ensures Fk(ImportedTurns, SESSION_KEY) in PartsOf(ImportedTurns)
  {}

  lemma DigestColumn()
    ensures Col(ImportedBundles, "payload_sha256") in PartsOf(ImportedBundles)
  {}

  lemma CadenceShape()
    ensures CadenceObjects() <= {Tbl(SourceCadence)} + PartsOf(SourceCadence)
  {}

  lemma ArchiveTables(l: Ladder, v: nat)
    requires l.statements == Statements && v >= 8
    requires Col(ImportedBundles, "payload_sha256") in l.shapes(ImportedBundles)
    requires Fk(ImportedSessions, BUNDLE_KEY) in l.shapes(ImportedSessions)
    requires Fk(ImportedTurns, SESSION_KEY) in l.shapes(ImportedTurns)
    ensures ArchiveObjects() <= Provided(l, v)
  {
    LaterVersions();
    TableStays(l, 8, v, ImportedBundles);
    TableStays(l, 8, v, ImportedSessions);
    TableStays(l, 8, v, ImportedTurns);
    IndexStays(l, 8, v, "idx_imp_turns_session", ImportedTurns, {"bundle_id", "session_export_id"});
  }

  lemma LaterTables(l: Ladder, v: nat)
    requires l.statements == Statements && CadenceObjects() <= {Tbl(SourceCadence)} + l.shapes(SourceCadence)
    ensures v >= 4 ==> Col(PromptArtifacts, "compiler_version") in Provided(l, v)
    ensures v >= 9 ==> {Tbl(SpendLedger), Idx("idx_spend_started")} <= Provided(l, v)
    ensures v >= 10 ==> CadenceObjects() <= Provided(l, v)
  {
    LaterVersions();
    if v >= 4 { ColumnStays(l, 4, v, PromptArtifacts, "compiler_version"); }
    if v >= 9 {
      TableStays(l, 9, v, SpendLedger);
      IndexStays(l, 9, v, "idx_spend_started", SpendLedger, {"started_ms"});
    }
    if v >= 10 { TableStays(l, 10, v, SourceCadence); }
  }

  /** The checks before a version is recorded always pass on a ladder run in order. */
  lemma RequiredIsProvided(l: Ladder, v: nat)
    requires l == VERSIONS && v >= 2
    ensures Required(v) <= Provided(l, v)
  {
    CreatedShapes();
    DigestColumn();
    CadenceShape();
    ExtensionsStay(l, v);
    if v >= 8 { ArchiveTables(l, v); }
    LaterTables(l, v);
  }

  /** The shipped ladder is sound, so everything proved of sound ladders holds of it. */
  lemma LadderIsSound(l: Ladder)
    requires l == VERSIONS
    ensures Sound(l)
  {
    PartsArePlain();
    forall v | 1 <= v <= l.latest ensures SoundAt(l, v) {
      VersionReady(l, v);
      if v >= 2 { RequiredIsProvided(l, v); }
    }
    forall t | t in l.core ensures Tbl(t) in Provided(l, 1) {
      BootstrapCreates(t);
      ProvidedBy(l, 1, 1, CreateTable(t));
      assert Tbl(t) in Gives(PartsOf, CreateTable(t));
    }
  }

  /**
   From every startable schema the shipped ladder ends at version 10 with every
   required object, exactly one version row, and no table or column lost.
   */
  lemma EndsAtLatest(l: Ladder, db: Db)
    requires l == VERSIONS && Startable(l, db)
    ensures Migrated(l, db).Some?
    ensures var done := Migrated(l, db).value;
            done.versions == {LATEST} && Required(LATEST) <= done.objects && db.objects <= done.objects
    ensures Migrated(l, Migrated(l, db).value) == Migrated(l, db)
  {
    LadderIsSound(l);
    LadderCompletes(l, db);
    RequiredIsProvided(l, LATEST);
    var done := Migrated(l, db).value;
    StillShaped(l, db);
    RerunIsNoOp(l, done);
  }

  lemma StillShaped(l: Ladder, db: Db)
    requires Sound(l) && Startable(l, db) && l.latest >= 2
    ensures CompleteTo(l, Db(db.objects + Provided(l, l.latest), {l.latest}), l.latest)
    ensures CoreComplete(l, Db(db.objects + Provided(l, l.latest), {l.latest}))
  {
    ProvidedGrows(l, 1, l.latest);
    ShapedWith(l, db.objects, l.latest);
  }

  /** Everything the ladder provides keeps a well-shaped schema well shaped. */
  lemma {:induction false} ShapedWith(l: Ladder, objects: set<Object>, v: nat)
    requires Sound(l) && WellShaped(l.shapes, objects) && v <= l.latest
    ensures WellShaped(l.shapes, objects + Provided(l, v))
    decreases v
  {
    if v == 0 {
      assert objects + {} == objects;
    } else {
      ShapedWith(l, objects, v - 1);
      assert SoundAt(l, v);
      ExecPrepared(l.shapes, objects + Provided(l, v - 1), Provided(l, v - 1), l.statements(v), |l.statements(v)|);
      assert objects + Provided(l, v - 1) + VersionGives(l, v) == objects + Provided(l, v);
    }
  }

  // ----- what is missing below the recorded version stays missing -----

  /** The version whose statements create a table. */
  function TableVersion(t: Table): nat {
    match t
    case SchemaVersion | Projects | Sessions | Turns | RouterRequests => 1
    case IntentEpisodes | Findings | PromptArtifacts | Watermark | Runs => 1
    case AgentCalls | AgentEvents | SkillPins => 2
    case FindingObservations => 5
    case RunAnalyzedProjects => 6
    case ProjectGitSnapshots => 7
    case ImportedBundles | ImportedSessions | ImportedTurns => 8
    case SpendLedger => 9
    case SourceCadence => 10
    case OtherTable(_) => 0
  }

  /** The version that adds a column the table does not come with. */
  function AddedVersion(t: Table, c: string): nat {
    match t
    case RouterRequests => 3
    case PromptArtifacts => if c == "compiler_version" then 4 else 2
    case Findings => if c == "dismissed_evidence_sha" || c == "dismissed_ms" then 5 else 2
    case _ => 2
  }

  function IndexVersion(name: string): nat {
    if name == "idx_agent_calls_run" || name == "idx_agent_events_run" then 2
    else if name == "idx_router_linked" then 3
    else if name == "idx_finding_obs_run" || name == "idx_finding_obs_finding" then 5
    else if name == "idx_git_snap_project" then 7
    else if name == "idx_imp_turns_session" then 8
    else if name == "idx_spend_started" then 9
    else 1
  }

  /** The one version of the ladder that gives an object. */
  function VersionOf(o: Object): nat {
    match o
    case Tbl(t) => TableVersion(t)
    case Col(t, c) => if o in PartsOf(t) then TableVersion(t) else AddedVersion(t, c)
    case Fk(t, _) => TableVersion(t)
    case Idx(name) => IndexVersion(name)
  }

  lemma TablesAt(v: nat, i: nat)
    requires 1 <= v <= LATEST && i < |Statements(v)| && Statements(v)[i].CreateTable?
    ensures TableVersion(Statements(v)[i].t) == v
  {}

  lemma IndexesAt(v: nat, i: nat)
    requires 1 <= v <= LATEST && i < |Statements(v)| && Statements(v)[i].CreateIndex?
    ensures IndexVersion(Statements(v)[i].name) == v
  {
    if v == 1 { BootstrapIndexes(i); }
  }

  lemma BootstrapIndexes(i: nat)
    requires i < |BOOTSTRAP| && BOOTSTRAP[i].CreateIndex?
    ensures IndexVersion(BOOTSTRAP[i].name) == 1
  {}

  /** The columns of version 2 are none of those their tables come with, nor are the later ones. */
  lemma TwoAddsFresh(i: nat)
    requires i < |Statements(2)| && Statements(2)[i].AddColumn?
    ensures var s := Statements(2)[i]; Col(s.t, s.c) !in PartsOf(s.t)
  {}

  lemma LaterAddFresh(v: nat, i: nat)
    requires 2 < v <= LATEST && i < |Statements(v)| && Statements(v)[i].AddColumn?
    ensures var s := Statements(v)[i]; Col(s.t, s.c) !in PartsOf(s.t)
  {}

  lemma AddedAt(v: nat, i: nat)
    requires 1 <= v <= LATEST && i < |Statements(v)| && Statements(v)[i].AddColumn?
    ensures v >= 2 && AddedVersion(Statements(v)[i].t, Statements(v)[i].c) == v
  {}

  /** No two versions give the same object. */
  lemma GivenOnce(v: nat, i: nat, o: Object)
    requires 1 <= v <= LATEST && i < |Statements(v)| && o in Gives(PartsOf, Statements(v)[i])
    ensures VersionOf(o) == v
  {
    var s := Statements(v)[i];
    match s
    case CreateTable(t) =>
      TablesAt(v, i);
      if o != Tbl(t) { PartsOfOneTable(t, o); }
    case AddColumn(t, c) =>
      AddedAt(v, i);
      if v == 2 { TwoAddsFresh(i); } else { LaterAddFresh(v, i); }
    case CreateIndex(_, _, _) => IndexesAt(v, i);
  }

  lemma GivenInVersion(v: nat, o: Object)
    requires 1 <= v <= LATEST && o in GivesAll(PartsOf, Statements(v), |Statements(v)|)
    ensures VersionOf(o) == v
  {
    var i := GivenBySome(PartsOf, Statements(v), |Statements(v)|, o);
    GivenOnce(v, i, o);
  }

  lemma {:induction false} ProvidedUpTo(l: Ladder, v: nat, o: Object)
    requires l == VERSIONS && v <= LATEST && o in Provided(l, v)
    ensures 1 <= VersionOf(o) <= v
    decreases v
  {
    if o in VersionGives(l, v) { GivenInVersion(v, o); } else { ProvidedUpTo(l, v - 1, o); }
  }

  lemma MissingBelowStaysMissing(l: Ladder, db: Db, v: nat, x: Object)
    requires l == VERSIONS && Recorded(db, v) && 1 <= v <= LATEST && Migrated(l, db).Some?
    requires x in Provided(l, v) && x !in StartObjects(l, db)
    ensures x !in Migrated(l, db).value.objects
  {
    ProvidedUpTo(l, v, x);
    forall w | v < w <= LATEST ensures x !in VersionGives(l, w) {
      if x in VersionGives(l, w) { GivenInVersion(w, x); }
    }
    MissingStaysMissing(l, db, v, x);
  }

  /**
   Migration ends with every provided object exactly when nothing the recorded
   version stands for is missing at the start; otherwise it fails or leaves a
   schema that claims version 10 without it.
   */
  lemma MigratesFullyIff(l: Ladder, db: Db, v: nat)
    requires l == VERSIONS && WellShaped(l.shapes, db.objects) && Recorded(db, v) && 1 <= v <= LATEST
    ensures Migrated(l, db).Some? && Provided(l, LATEST) <= Migrated(l, db).value.objects
            <==> Provided(l, v) <= StartObjects(l, db)
    ensures Provided(l, v) <= StartObjects(l, db) ==>
              Migrated(l, db) == Some(Db(db.objects + Provided(l, LATEST),
                                         if v == LATEST then StartVersions(l, db) else {LATEST}))
  {
    LadderIsSound(l);
    if Provided(l, v) <= StartObjects(l, db) {
      ResumableMigrates(l, db, v);
    } else if Migrated(l, db).Some? {
      var x :| x in Provided(l, v) && x !in StartObjects(l, db);
      MissingBelowStaysMissing(l, db, v, x);
      ProvidedGrows(l, v, LATEST);
    }
  }

  // ----- a bootstrap script that stopped half way -----

  function BootstrapIndexNames(): set<string> {
    {"idx_turns_session", "idx_turns_ts", "idx_sessions_project", "idx_router_ts", "idx_findings_project",
     "idx_episodes_project"}
  }

  lemma BootstrapIndex(name: string) returns (i: nat)
    requires name in BootstrapIndexNames()
    ensures i < |BOOTSTRAP| && BOOTSTRAP[i].CreateIndex? && BOOTSTRAP[i].name == name
  {
    i := if name == "idx_turns_session" then 10 else if name == "idx_turns_ts" then 11
         else if name == "idx_sessions_project" then 12 else if name == "idx_router_ts" then 13
         else if name == "idx_findings_project" then 14 else 15;
  }

  lemma BootstrapGives(i: nat)
    requires i < |BOOTSTRAP|
    ensures BOOTSTRAP[i].CreateTable? ==> BOOTSTRAP[i].t in V1_REQUIRED
    ensures BOOTSTRAP[i].CreateIndex? ==> BOOTSTRAP[i].name in BootstrapIndexNames()
    ensures !BOOTSTRAP[i].AddColumn?
  {}

  lemma BootstrapOfOne(l: Ladder)
    requires l == VERSIONS
    ensures Provided(l, 1) == GivesAll(PartsOf, BOOTSTRAP, |BOOTSTRAP|)
  {
    assert Provided(l, 0) == {};
    assert l.statements(1) == BOOTSTRAP;
  }

  /**
   The bootstrap script is not a transaction: interrupted after its last table
   it counts as done.  A later run completes the schema exactly when all six of
   its indexes were already there; it never creates a missing one.
   */
  lemma InterruptedBootstrapIff(l: Ladder, db: Db)
    requires l == VERSIONS && WellShaped(l.shapes, db.objects) && CoreComplete(l, db) && Recorded(db, 1)
    ensures Migrated(l, db).Some? && Provided(l, LATEST) <= Migrated(l, db).value.objects
            <==> forall name :: name in BootstrapIndexNames() ==> Idx(name) in db.objects
    ensures forall name :: Migrated(l, db).Some? && name in BootstrapIndexNames() && Idx(name) !in db.objects ==>
              Idx(name) !in Migrated(l, db).value.objects
  {
    BootstrapOfOne(l);
    MigratesFullyIff(l, db, 1);
    forall name | name in BootstrapIndexNames() ensures Idx(name) in Provided(l, 1) {
      var i := BootstrapIndex(name);
      assert BOOTSTRAP[i] in BOOTSTRAP[..|BOOTSTRAP|];
      Gathered(PartsOf, BOOTSTRAP, |BOOTSTRAP|, BOOTSTRAP[i]);
    }
    if forall name :: name in BootstrapIndexNames() ==> Idx(name) in db.objects {
      forall i | 0 <= i < |BOOTSTRAP|
        ensures !BOOTSTRAP[i].AddColumn?
        ensures BOOTSTRAP[i].CreateTable? ==> Tbl(BOOTSTRAP[i].t) in db.objects
        ensures BOOTSTRAP[i].CreateIndex? ==> Idx(BOOTSTRAP[i].name) in db.objects
      {
        BootstrapGives(i);
      }
      GivenAreThere(PartsOf, db.objects, BOOTSTRAP, |BOOTSTRAP|);
    }
    forall name | Migrated(l, db).Some? && name in BootstrapIndexNames() && Idx(name) !in db.objects
      ensures Idx(name) !in Migrated(l, db).value.objects
    {
      MissingBelowStaysMissing(l, db, 1, Idx(name));
    }
  }
}
