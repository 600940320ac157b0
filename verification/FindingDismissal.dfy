/**
 What a dismissal guarantees, over arbitrary later writes: it sticks while the
 evidence digest is the pinned one, and a changed digest lifts it.
 */
module FindingDismissal {
  import opened Wrappers
  import opened FindingLedger
  import opened FindingWrites

  /** The write's own guard leaves a dismissed finding alone. */
  predicate Leaves(db: Db, sha: string -> string, op: Op, finding: FindingId)
    requires IsDismissed(db, finding)
  {
    var row := db.findings[finding];
    match op
    case OpPersist(f, report, run, _) =>
      f != finding || run.None? || row.dismissedSha == "" || sha(report.evidence) == row.dismissedSha
    case OpInsertAgent(f, _, run, _) =>
      f != finding || run.None? || SightingIn(LedgerOf(db), finding, run.value) == Live
    case OpDismiss(f, reason, nowMs) =>
      || f != finding || reason !in DISMISSAL_REASONS
      || (reason == row.dismissalReason && row.resolvedMs == Some(nowMs) && sha(row.evidence) == row.dismissedSha)
    case OpUndismiss(f) => f != finding
    case _ => true
  }

  /** `after` carries the same judgement on the finding and no live sighting that `before` lacked. */
  ghost predicate StillDismissed(before: Db, after: Db, finding: FindingId) {
    && IsDismissed(before, finding) && IsDismissed(after, finding)
    && after.findings[finding].dismissalReason == before.findings[finding].dismissalReason
    && after.findings[finding].dismissedSha == before.findings[finding].dismissedSha
    && after.findings[finding].resolvedMs == before.findings[finding].resolvedMs
    && forall r :: SightingIn(LedgerOf(after), finding, r) == Live ==> SightingIn(LedgerOf(before), finding, r) == Live
  }

  /** One write keeps the dismissal exactly when its guard leaves the finding alone. */
  lemma StillDismissedIff(db: Db, sha: string -> string, op: Op, finding: FindingId)
    requires IsDismissed(db, finding)
    ensures StillDismissed(db, Apply(db, sha, op), finding) <==> Leaves(db, sha, op, finding)
  {
    match op
    case OpPersist(f, report, run, ms) => PersistLeavesIff(db, sha, f, report, run, ms, finding);
    case OpInsertAgent(f, report, run, ms) => InsertLeavesIff(db, sha, f, report, run, ms, finding);
    case OpDismiss(f, reason, ms) => DismissLeavesIff(db, sha, f, reason, ms, finding);
    case _ =>
  }

  lemma PersistLeavesIff(db: Db, sha: string -> string, f: FindingId, report: Report, run: Option<RunId>, ms: int,
                         finding: FindingId)
    requires IsDismissed(db, finding)
    ensures StillDismissed(db, Persist(db, sha, f, report, run, ms), finding)
            <==> Leaves(db, sha, OpPersist(f, report, run, ms), finding)
  {}

  lemma InsertLeavesIff(db: Db, sha: string -> string, f: FindingId, report: Report, run: Option<RunId>, ms: int,
                        finding: FindingId)
    requires IsDismissed(db, finding)
    ensures StillDismissed(db, InsertUnruled(db, f, report, run, ms), finding)
            <==> Leaves(db, sha, OpInsertAgent(f, report, run, ms), finding)
  {
    var after := InsertUnruled(db, f, report, run, ms);
    if f == finding && run.Some? { assert SightingIn(LedgerOf(after), finding, run.value) == Live; }
  }

  lemma DismissLeavesIff(db: Db, sha: string -> string, f: FindingId, reason: string, ms: int, finding: FindingId)
    requires IsDismissed(db, finding)
    ensures StillDismissed(db, DismissIn(db, sha, f, reason, ms), finding)
            <==> Leaves(db, sha, OpDismiss(f, reason, ms), finding)
  {}

  /** Every write of the list leaves the finding alone at its turn. */
  ghost predicate LeavesAll(db: Db, sha: string -> string, ops: seq<Op>, finding: FindingId)
    requires IsDismissed(db, finding)
    decreases |ops|
  {
    ops != [] ==>
      && Leaves(db, sha, ops[0], finding)
      && (StillDismissedIff(db, sha, ops[0], finding);
          LeavesAll(Apply(db, sha, ops[0]), sha, ops[1..], finding))
  }

  /** A dismissal sticks across any number of writes that leave it alone. */
  lemma {:induction false} DismissalSticks(db: Db, sha: string -> string, ops: seq<Op>, finding: FindingId)
    requires IsDismissed(db, finding) && LeavesAll(db, sha, ops, finding)
    ensures StillDismissed(db, ApplyAll(db, sha, ops), finding)
    decreases |ops|
  {
    if ops != [] {
      StillDismissedIff(db, sha, ops[0], finding);
      DismissalSticks(Apply(db, sha, ops[0]), sha, ops[1..], finding);
    }
  }

  /** And no longer: the first write that does not leave the finding alone breaks it. */
  lemma {:induction false} FirstBreak(db: Db, sha: string -> string, ops: seq<Op>, finding: FindingId) returns (i: nat)
    requires IsDismissed(db, finding) && !LeavesAll(db, sha, ops, finding)
    ensures i < |ops| && StillDismissed(db, ApplyAll(db, sha, ops[..i]), finding)
    ensures !StillDismissed(ApplyAll(db, sha, ops[..i]), ApplyAll(db, sha, ops[..i + 1]), finding)
    decreases |ops|
  {
    StillDismissedIff(db, sha, ops[0], finding);
    if !Leaves(db, sha, ops[0], finding) {
      i := 0;
      assert ops[..1] == [ops[0]] && ops[..0] == [] && [ops[0]][1..] == [];
    } else {
      i := FirstBreak(Apply(db, sha, ops[0]), sha, ops[1..], finding);
      assert ops[..i + 1][1..] == ops[1..][..i] && ops[..i + 2][1..] == ops[1..][..i + 1];
      i := i + 1;
    }
  }

  /** A run that started after the dismissal can only call the finding resolved or dismissed. */
  lemma LaterRunsSettle(db: Db, sha: string -> string, ops: seq<Op>, finding: FindingId, run: RunId)
    requires IsDismissed(db, finding) && LeavesAll(db, sha, ops, finding)
    requires SightingIn(LedgerOf(db), finding, run) != Live
    ensures var v := Verdict(LedgerOf(ApplyAll(db, sha, ops)), run, finding);
            v == None || v == Some(Resolved) || v == Some(Dismissed)
  {
    DismissalSticks(db, sha, ops, finding);
    assert SightingIn(LedgerOf(ApplyAll(db, sha, ops)), finding, run) != Live;
  }

  /** Dismissing pins the judged evidence: with a digest, exactly the reports of that digest leave it alone. */
  lemma DismissPins(db: Db, sha: string -> string, finding: FindingId, reason: string, nowMs: int)
    requires reason in DISMISSAL_REASONS && finding in db.findings && sha(db.findings[finding].evidence) != ""
    ensures var after := DismissIn(db, sha, finding, reason, nowMs);
            && IsDismissed(after, finding) && after.findings[finding].dismissalReason == reason
            && forall report: Report, run: RunId, ms ::
                 StillDismissed(after, Persist(after, sha, finding, report, Some(run), ms), finding)
                 <==> sha(report.evidence) == sha(db.findings[finding].evidence)
  {
    var after := DismissIn(db, sha, finding, reason, nowMs);
    forall report: Report, run: RunId, ms
      ensures StillDismissed(after, Persist(after, sha, finding, report, Some(run), ms), finding)
              <==> sha(report.evidence) == sha(db.findings[finding].evidence)
    {
      PersistLeavesIff(after, sha, finding, report, Some(run), ms, finding);
    }
  }

  /** Two ledgers that agree on everything before `beforeMs` agree on the phase. */
  lemma PhaseDependsOnEarlierRows(a: Ledger, b: Ledger, finding: FindingId, project: ProjectId, beforeMs: int)
    requires a.started == b.started && a.analyzed == b.analyzed && DistinctStarts(a)
    requires forall r :: r in a.started && a.started[r] < beforeMs ==>
               SightingIn(a, finding, r) == SightingIn(b, finding, r)
    ensures PhaseAt(a, finding, project, beforeMs) == PhaseAt(b, finding, project, beforeMs)
  {
    assert forall r :: Analyses(a, r, project) <==> Analyses(b, r, project);
    forall r | r in a.started && a.started[r] < beforeMs
      ensures (finding, r) in a.observed <==> (finding, r) in b.observed
    {
      assert SightingIn(a, finding, r) == SightingIn(b, finding, r);
    }
    assert SeenBefore(a, finding, project, beforeMs) <==> SeenBefore(b, finding, project, beforeMs);
    forall r ensures IsPredecessor(a, project, beforeMs, r) <==> IsPredecessor(b, project, beforeMs, r) {}
    if r :| IsPredecessor(a, project, beforeMs, r) {
      PhaseOfPredecessor(a, finding, project, beforeMs, r);
      PhaseOfPredecessor(b, finding, project, beforeMs, r);
    }
  }

  /**
   A changed digest lifts the dismissal.  The verdict is `regressed` exactly when
   the finding was seen before and the previous run analysing its project did
   not record it live; after a live predecessor it is `persisting`.
   */
  lemma ChangedEvidenceLifts(db: Db, sha: string -> string, finding: FindingId, report: Report, run: RunId, nowMs: int)
    requires MateriallyChanged(db, sha, finding, report.evidence)
    requires DistinctStarts(LedgerOf(db))
    requires Analyses(LedgerOf(db), run, db.findings[finding].project)
    ensures var after := Persist(db, sha, finding, report, Some(run), nowMs);
            var l, p, ms := LedgerOf(db), db.findings[finding].project, db.runs[run];
            && !IsDismissed(after, finding)
            && after.findings[finding].resolvedMs == None
            && Verdict(LedgerOf(after), run, finding) == Classify(PhaseAt(l, finding, p, ms), Live)
            && (Verdict(LedgerOf(after), run, finding) == Some(Regressed) <==>
                  SeenBefore(l, finding, p, ms) &&
                  forall q :: IsPredecessor(l, p, ms, q) ==> SightingIn(l, finding, q) != Live)
  {
    var l, p, ms := LedgerOf(db), db.findings[finding].project, db.runs[run];
    PhaseDependsOnEarlierRows(l, LedgerOf(Persist(db, sha, finding, report, Some(run), nowMs)), finding, p, ms);
    RegressedIff(l, finding, p, ms);
  }

  /** A live sighting regresses exactly after an earlier one with no live predecessor. */
  lemma RegressedIff(l: Ledger, finding: FindingId, p: ProjectId, ms: int)
    requires DistinctStarts(l)
    ensures Classify(PhaseAt(l, finding, p, ms), Live) == Some(Regressed) <==>
              SeenBefore(l, finding, p, ms) && forall q :: IsPredecessor(l, p, ms, q) ==>
                  SightingIn(l, finding, q) != Live
  {
    if q :| IsPredecessor(l, p, ms, q) {
      PhaseOfPredecessor(l, finding, p, ms, q);
      forall q' | IsPredecessor(l, p, ms, q') ensures q' == q { PredecessorUnique(l, p, ms, q', q); }
      if SightingIn(l, finding, q) != Unreported { assert SeenBefore(l, finding, p, ms); }
    } else if SeenBefore(l, finding, p, ms) {
      var r :| Analyses(l, r, p) && l.started[r] < ms && (finding, r) in l.observed;
      var among := set x | x in l.started && Analyses(l, x, p) && l.started[x] < ms;
      assert r in among;
      PredecessorExists(l, p, ms, among);
    }
  }

  /** The next run: its row, the project it analyses, and its report of the finding. */
  function NextRun(db: Db, sha: string -> string, run: RunId, startedMs: int, finding: FindingId, report: Report): Db
    requires finding in db.findings
  {
    Persist(Apply(StartRunIn(db, run, startedMs), sha, OpAnalyze(run, db.findings[finding].project)),
            sha, finding, report, Some(run), startedMs)
  }

  /**
   The documented outcome of a materially changed recurrence is `regressed`.  In
   the first run after a dismissal it is never that: the predecessor recorded
   the finding live before the operator judged it, so the verdict is `persisting`.
   */
  lemma ChangeRightAfterDismissalPersists(db: Db, sha: string -> string, finding: FindingId, reason: string,
                                          dismissedMs: int,
                                          run: RunId, startedMs: int, report: Report, prev: RunId)
    requires finding in db.findings && reason in DISMISSAL_REASONS
    requires sha(db.findings[finding].evidence) != "" && sha(report.evidence) != sha(db.findings[finding].evidence)
    requires DistinctStarts(LedgerOf(db))
    requires run !in db.runs && forall r :: r in db.runs ==> db.runs[r] < startedMs
    requires IsPredecessor(LedgerOf(db), db.findings[finding].project, startedMs, prev)
    requires SightingIn(LedgerOf(db), finding, prev) == Live
    ensures var after := NextRun(DismissIn(db, sha, finding, reason, dismissedMs), sha, run, startedMs, finding,
                                 report);
            !IsDismissed(after, finding) && Verdict(LedgerOf(after), run, finding) == Some(Persisting)
  {
    var p := db.findings[finding].project;
    var dismissed := DismissIn(db, sha, finding, reason, dismissedMs);
    var begun := Apply(StartRunIn(dismissed, run, startedMs), sha, OpAnalyze(run, p));
    var l, l' := LedgerOf(db), LedgerOf(begun);
    forall r | AnalysesAny(l', r) && r != run ensures AnalysesAny(l, r) && l.started[r] == l'.started[r] {
      var a :| a in l'.analyzed && a.0 == r;
      assert a in l.analyzed;
    }
    assert DistinctStarts(l');
    assert (prev, p) in l'.analyzed;
    assert IsPredecessor(l', p, startedMs, prev);
    PhaseOfPredecessor(l', finding, p, startedMs, prev);
    assert SightingIn(l', finding, prev) == Live;
    ChangedEvidenceLifts(begun, sha, finding, report, run, startedMs);
  }

  // ----- the findings view against the diff -----

  /** The state a findings listing shows for a row, given the diff's verdict if any. */
  function DisplayState(row: FindingRow, verdict: Option<DeltaState>): DeltaState {
    if row.dismissalReason != "" then Dismissed
    else match verdict
         case Some(v) => v
         case None => if row.resolvedMs.Some? && row.resolvedMs.value != 0 then Resolved else New
  }

  /** What the queried run's rows say about a finding, for the listing to agree with the diff. */
  ghost predicate ListedAsClassified(l: Ledger, run: RunId, finding: FindingId, dismissed: bool)
    requires finding in l.owner
  {
    && run in l.started && (run, l.owner[finding]) in l.analyzed
    && var now, phase := SightingIn(l, finding, run), PhaseAt(l, finding, l.owner[finding], l.started[run]);
       if dismissed then now == Settled && (phase == LastSettled || phase == LastAbsent)
       else now != Unreported || phase == LastLive || phase == LastSettled
  }

  /**
   The listing shows what the diff says exactly when the run analysed the
   project and either the finding is dismissed and was recorded settled after an
   earlier sighting, or it is not and this run or its predecessor recorded it.
   */
  lemma ListingMatchesDiffIff(db: Db, run: RunId, finding: FindingId)
    requires finding in db.findings
    ensures var v := Verdict(LedgerOf(db), run, finding);
            v == Some(DisplayState(db.findings[finding], v))
            <==> ListedAsClassified(LedgerOf(db), run, finding, IsDismissed(db, finding))
  {
    var l := LedgerOf(db);
    if run in l.started {
      ClassifyCases(PhaseAt(l, finding, l.owner[finding], l.started[run]), SightingIn(l, finding, run));
    }
  }

  /** When the classifier speaks at all, and when it says dismissed. */
  lemma ClassifyCases(phase: Phase, now: Sighting)
    ensures Classify(phase, now).Some? <==> now != Unreported || phase == LastLive || phase == LastSettled
    ensures Classify(phase, now) == Some(Dismissed) <==> now == Settled && (phase == LastSettled || phase == LastAbsent)
  {}

  /**
   Without a verdict an open finding is listed as new, however old: in particular
   when its project was not analysed.
   */
  lemma ShownNewIff(db: Db, run: RunId, finding: FindingId)
    requires finding in db.findings && !IsDismissed(db, finding) && db.findings[finding].resolvedMs.None?
    ensures var v := Verdict(LedgerOf(db), run, finding);
            && (DisplayState(db.findings[finding], v) == New
                <==> v == Some(New) || !ListedAsClassified(LedgerOf(db), run, finding, false))
            && ((run, db.findings[finding].project) !in db.analyzed ==> v == None)
  {
    ListingMatchesDiffIff(db, run, finding);
  }

  /**
   An agent's report of a dismissed finding in a run that analyses its project:
   the row stays dismissed and the diff calls it live, so listing and diff
   disagree; and unless that sighting was live already the dismissal is broken.
   */
  lemma AgentPathSkipsRule(db: Db, sha: string -> string, finding: FindingId, report: Report, run: RunId, nowMs: int)
    requires IsDismissed(db, finding)
    requires Analyses(LedgerOf(db), run, db.findings[finding].project)
    ensures var after := InsertUnruled(db, finding, report, Some(run), nowMs);
            var v := Verdict(LedgerOf(after), run, finding);
            && DisplayState(after.findings[finding], v) == Dismissed
            && v.Some? && v != Some(Dismissed) && v != Some(Resolved)
            && (StillDismissed(db, after, finding) <==> SightingIn(LedgerOf(db), finding, run) == Live)
  {
    InsertLeavesIff(db, sha, finding, report, Some(run), nowMs, finding);
    var after := InsertUnruled(db, finding, report, Some(run), nowMs);
    ListingMatchesDiffIff(after, run, finding);
  }
}
