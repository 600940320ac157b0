/**
 The findings ledger: which runs looked at which project, and what each of them
 recorded about each finding.  The delta state of a finding is derived from
 these rows; nothing is stored.

 `Verdict` is the reference classifier.  It is a four-phase automaton (never
 seen, live, dismissed, absent) that reads only the runs that analysed the
 finding's own project.  `FindingStore.DeltaStates` is the query-shaped code
 that must agree with it.
 */
module FindingLedger {
  import opened Wrappers

  type RunId = string
  type ProjectId = string
  type FindingId = string

  /** The rows the classifier reads. */
  datatype Ledger = Ledger(
    started: map<RunId, int>,                  // runs.id -> started_ms
    analyzed: set<(RunId, ProjectId)>,         // run_analyzed_projects
    observed: map<(FindingId, RunId), bool>,   // finding_observations -> resolved
    owner: map<FindingId, ProjectId>)          // findings.id -> project_id

  datatype DeltaState = New | Persisting | Resolved | Regressed | Dismissed

  /** What one run recorded about one finding. */
  datatype Sighting = Live | Settled | Unreported

  /** What the earlier runs of the finding's project add up to. */
  datatype Phase = NeverSeen | LastLive | LastSettled | LastAbsent

  /** A row of run_analyzed_projects joined with its run row. */
  predicate Analyses(l: Ledger, run: RunId, project: ProjectId) {
    (run, project) in l.analyzed && run in l.started
  }

  predicate AnalysesAny(l: Ledger, run: RunId) {
    run in l.started && exists a :: a in l.analyzed && a.0 == run
  }

  /** No two analysing runs share a start time, so ORDER BY started_ms is total. */
  ghost predicate DistinctStarts(l: Ledger) {
    forall a, b :: AnalysesAny(l, a) && AnalysesAny(l, b) && l.started[a] == l.started[b] ==> a == b
  }

  function SightingIn(l: Ledger, finding: FindingId, run: RunId): Sighting {
    if (finding, run) !in l.observed then Unreported
    else if l.observed[(finding, run)] then Settled
    else Live
  }

  /** `run` is a latest run before `beforeMs` that analysed `project`. */
  ghost predicate IsPredecessor(l: Ledger, project: ProjectId, beforeMs: int, run: RunId) {
    && Analyses(l, run, project)
    && l.started[run] < beforeMs
    && forall r :: Analyses(l, r, project) && l.started[r] < beforeMs ==> l.started[r] <= l.started[run]
  }

  /** Some analysing run before `beforeMs` recorded the finding at all. */
  ghost predicate SeenBefore(l: Ledger, finding: FindingId, project: ProjectId, beforeMs: int) {
    exists r :: Analyses(l, r, project) && l.started[r] < beforeMs && (finding, r) in l.observed
  }

  ghost function PhaseAt(l: Ledger, finding: FindingId, project: ProjectId, beforeMs: int): Phase {
    if exists r :: IsPredecessor(l, project, beforeMs, r) then
      var prev :| IsPredecessor(l, project, beforeMs, prev);
      match SightingIn(l, finding, prev)
      case Live => LastLive
      case Settled => LastSettled
      case Unreported => if SeenBefore(l, finding, project, beforeMs) then LastAbsent else NeverSeen
    else
      NeverSeen
  }

  /** The event, if any, that a sighting produces in a phase. */
  function Classify(phase: Phase, now: Sighting): Option<DeltaState> {
    match (phase, now)
    case (NeverSeen, Live) => Some(New)
    case (NeverSeen, Settled) => Some(Resolved)
    case (NeverSeen, Unreported) => None
    case (LastLive, Live) => Some(Persisting)
    case (LastLive, Settled) => Some(Resolved)
    case (LastLive, Unreported) => Some(Resolved)
    case (LastSettled, Live) => Some(Regressed)
    case (LastSettled, Settled) => Some(Dismissed)
    case (LastSettled, Unreported) => Some(Resolved)
    case (LastAbsent, Live) => Some(Regressed)
    case (LastAbsent, Settled) => Some(Dismissed)
    case (LastAbsent, Unreported) => None
  }

  function NextPhase(phase: Phase, now: Sighting): Phase {
    match now
    case Live => LastLive
    case Settled => LastSettled
    case Unreported => if phase == NeverSeen then NeverSeen else LastAbsent
  }

  /** The delta state of a finding in a run; None when the run gives no verdict. */
  ghost function Verdict(l: Ledger, run: RunId, finding: FindingId): Option<DeltaState> {
    if run !in l.started || finding !in l.owner || (run, l.owner[finding]) !in l.analyzed then
      None
    else
      Classify(PhaseAt(l, finding, l.owner[finding], l.started[run]), SightingIn(l, finding, run))
  }

  /** `states` is exactly the verdict table of `run`. */
  ghost predicate IsVerdictTable(l: Ledger, run: RunId, states: map<FindingId, DeltaState>) {
    && (forall f :: f in states ==> Verdict(l, run, f) == Some(states[f]))
    && (forall f :: Verdict(l, run, f).Some? ==> f in states)
  }

  lemma PredecessorUnique(l: Ledger, project: ProjectId, beforeMs: int, a: RunId, b: RunId)
    requires DistinctStarts(l)
    requires IsPredecessor(l, project, beforeMs, a) && IsPredecessor(l, project, beforeMs, b)
    ensures a == b
  {
    assert (a, project) in l.analyzed && (b, project) in l.analyzed;
  }

  /** With distinct starts, the phase is what the one predecessor says. */
  lemma PhaseOfPredecessor(l: Ledger, finding: FindingId, project: ProjectId, beforeMs: int, prev: RunId)
    requires DistinctStarts(l)
    requires IsPredecessor(l, project, beforeMs, prev)
    ensures PhaseAt(l, finding, project, beforeMs) ==
            match SightingIn(l, finding, prev)
            case Live => LastLive
            case Settled => LastSettled
            case Unreported => if SeenBefore(l, finding, project, beforeMs) then LastAbsent else NeverSeen
  {
    forall r | IsPredecessor(l, project, beforeMs, r) ensures r == prev {
      PredecessorUnique(l, project, beforeMs, r, prev);
    }
  }

  /** No earlier analysing run means nothing was ever seen, and conversely a sighting means a predecessor. */
  lemma {:induction false} PredecessorExists(l: Ledger, project: ProjectId, beforeMs: int, among: set<RunId>)
    requires among != {}
    requires forall r :: r in among <==> Analyses(l, r, project) && l.started[r] < beforeMs
    ensures exists r :: IsPredecessor(l, project, beforeMs, r)
  {
    var best := LatestOf(l, among);
    assert IsPredecessor(l, project, beforeMs, best);
  }

  lemma {:induction false} LatestOf(l: Ledger, among: set<RunId>) returns (best: RunId)
    requires among != {} && forall r :: r in among ==> r in l.started
    ensures best in among && forall r :: r in among ==> l.started[r] <= l.started[best]
    decreases among
  {
    best :| best in among;
    var rest := among - {best};
    if rest != {} {
      var other := LatestOf(l, rest);
      if l.started[other] > l.started[best] { best := other; }
    } else {
      assert among == {best};
    }
  }
}
