/**
 The rows of the findings tables and the write protocol over them, including
 the dismissal and material-change rules.
 */
module FindingWrites {
  import opened Wrappers
  import opened FindingLedger

  /** One row of `findings`.  Empty strings stand for NULL in the dismissal columns. */
  datatype FindingRow = FindingRow(
    project: ProjectId,
    category: string,
    severity: string,
    evidence: string,
    createdMs: int,
    resolvedMs: Option<int>,
    dismissalReason: string,
    dismissedSha: string)

  datatype Observation = Observation(observedMs: int, resolved: bool)

  datatype Db = Db(
    runs: map<RunId, int>,
    analyzed: set<(RunId, ProjectId)>,
    findings: map<FindingId, FindingRow>,
    observations: map<(FindingId, RunId), Observation>)

  function LedgerOf(db: Db): Ledger {
    Ledger(db.runs, db.analyzed,
           map k | k in db.observations :: db.observations[k].resolved,
           map f | f in db.findings :: db.findings[f].project)
  }

  /** What an analyzer reports about a finding. */
  datatype Report = Report(project: ProjectId, category: string, severity: string, evidence: string)

  const DISMISSAL_REASONS := {"wrong", "wont-fix", "already-done", "duplicate"}

  function FreshRow(f: Report, nowMs: int): FindingRow {
    FindingRow(f.project, f.category, f.severity, f.evidence, nowMs, None, "", "")
  }

  function Upsert(db: Db, finding: FindingId, f: Report, nowMs: int): Db {
    db.(findings := db.findings[finding :=
      if finding in db.findings then db.findings[finding].(severity := f.severity, evidence := f.evidence)
      else FreshRow(f, nowMs)])
  }

  function Sight(db: Db, finding: FindingId, run: RunId, nowMs: int, resolved: bool): Db {
    db.(observations := db.observations[(finding, run) := Observation(nowMs, resolved)])
  }

  function UndismissIn(db: Db, finding: FindingId): Db {
    if finding !in db.findings then db
    else db.(findings := db.findings[finding :=
           db.findings[finding].(resolvedMs := None, dismissalReason := "", dismissedSha := "")])
  }

  predicate IsDismissed(db: Db, finding: FindingId) {
    finding in db.findings && db.findings[finding].dismissalReason != ""
  }

  /** The pinned digest differs from this evidence's digest. */
  predicate MateriallyChanged(db: Db, sha: string -> string, finding: FindingId, evidence: string) {
    && IsDismissed(db, finding)
    && db.findings[finding].dismissedSha != ""
    && sha(evidence) != db.findings[finding].dismissedSha
  }

  function Observe(db: Db, sha: string -> string, finding: FindingId, run: Option<RunId>, evidence: string,
                   nowMs: int): Db {
    if run.None? then db
    else if !IsDismissed(db, finding) then Sight(db, finding, run.value, nowMs, false)
    else if MateriallyChanged(db, sha, finding, evidence) then
      Sight(UndismissIn(db, finding), finding, run.value, nowMs, false)
    else Sight(db, finding, run.value, nowMs, true)
  }

  function Persist(db: Db, sha: string -> string, finding: FindingId, f: Report, run: Option<RunId>, nowMs: int): Db {
    Observe(Upsert(db, finding, f, nowMs), sha, finding, run, f.evidence, nowMs)
  }

  function InsertUnruled(db: Db, finding: FindingId, f: Report, run: Option<RunId>, nowMs: int): Db {
    var db' := Upsert(db, finding, f, nowMs);
    if run.None? then db' else Sight(db', finding, run.value, nowMs, false)
  }

  function DismissIn(db: Db, sha: string -> string, finding: FindingId, reason: string, nowMs: int): Db {
    if reason !in DISMISSAL_REASONS || finding !in db.findings then db
    else
      var row := db.findings[finding];
      db.(findings := db.findings[finding :=
        row.(dismissalReason := reason, resolvedMs := Some(nowMs), dismissedSha := sha(row.evidence))])
  }

  function StartRunIn(db: Db, run: RunId, startedMs: int): Db {
    if run in db.runs then db else db.(runs := db.runs[run := startedMs])
  }

  /** Everything that can write to these tables. */
  datatype Op =
    | OpStart(run: RunId, startedMs: int)
    | OpAnalyze(run: RunId, project: ProjectId)
    | OpPersist(finding: FindingId, report: Report, inRun: Option<RunId>, nowMs: int)
    | OpInsertAgent(finding: FindingId, report: Report, inRun: Option<RunId>, nowMs: int)
    | OpDismiss(finding: FindingId, reason: string, nowMs: int)
    | OpUndismiss(finding: FindingId)

  function Apply(db: Db, sha: string -> string, op: Op): Db {
    match op
    case OpStart(run, ms) => StartRunIn(db, run, ms)
    case OpAnalyze(run, p) => db.(analyzed := db.analyzed + {(run, p)})
    case OpPersist(f, report, run, ms) => Persist(db, sha, f, report, run, ms)
    case OpInsertAgent(f, report, run, ms) => InsertUnruled(db, f, report, run, ms)
    case OpDismiss(f, reason, ms) => DismissIn(db, sha, f, reason, ms)
    case OpUndismiss(f) => UndismissIn(db, f)
  }

  function ApplyAll(db: Db, sha: string -> string, ops: seq<Op>): Db
    decreases |ops|
  {
    if ops == [] then db else ApplyAll(Apply(db, sha, ops[0]), sha, ops[1..])
  }
}
