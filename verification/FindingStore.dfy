/**
 The findings tables and the read-side queries over them.  `DeltaStates` and
 `FindingMetrics` are the query-by-query code; their contracts tie them to the
 automaton of FindingLedger and to the timelines of FindingHistory.
 */
module FindingStore {
  import opened Wrappers
  import opened FindingLedger
  import opened FindingHistory
  import opened FindingWrites
  import opened Percentiles

  // ----- per-bucket tallies -----

  /** What `finding_metrics` keeps per bucket: counters, ages of open findings, times to a first resolution. */
  datatype Tally = Tally(news: int, regressed: int, resolved: int, regressedAfterResolve: int,
                         notObserved: int, open: int, ages: multiset<int>, times: multiset<int>)
  {
    function Plus(t: Tally): Tally {
      Tally(news + t.news, regressed + t.regressed, resolved + t.resolved,
            regressedAfterResolve + t.regressedAfterResolve, notObserved + t.notObserved, open + t.open,
            ages + t.ages, times + t.times)
    }

    function BacklogDelta(): int { news + regressed - resolved }
  }

  const BLANK := Tally(0, 0, 0, 0, 0, 0, multiset{}, multiset{})

  /** The times the metrics measure against: now, each finding's creation and its first sighting. */
  datatype Clock = Clock(now: int, created: map<FindingId, int>, firstSeen: map<FindingId, int>)

  function FirstResolution(events: seq<Event>): Option<int> {
    if events == [] then None
    else
      var before := FirstResolution(events[..|events| - 1]);
      if before.None? && events[|events| - 1].1 == Resolved then Some(events[|events| - 1].0) else before
  }

  function AgeOf(c: Clock, finding: FindingId): int {
    if finding in c.created then c.now - c.created[finding] else 0
  }

  function TimesOf(c: Clock, finding: FindingId, resolution: Option<int>): multiset<int> {
    if resolution.Some? && finding in c.firstSeen then multiset{resolution.value - c.firstSeen[finding]} else multiset{}
  }

  function RegressedAfterResolve(events: seq<Event>, n: nat): nat
    requires n <= |events|
  {
    if n == 0 then 0
    else RegressedAfterResolve(events, n - 1) +
         if events[n - 1].1 == Resolved && n < |events| && events[n].1 == Regressed then 1 else 0
  }

  function TallyOf(events: seq<Event>, c: Clock, finding: FindingId): Tally {
    Tally(CountOf(events, New), CountOf(events, Regressed), CountOf(events, Resolved),
          RegressedAfterResolve(events, |events|), if events == [] then 1 else 0, OpenAtEnd(events),
          if OpenAtEnd(events) > 0 then multiset{AgeOf(c, finding)} else multiset{},
          TimesOf(c, finding, FirstResolution(events)))
  }

  /** The contribution of one finding: its whole replayed timeline. */
  ghost function FindingTally(l: Ledger, runs: seq<RunId>, c: Clock, finding: FindingId): Tally {
    TallyOf(Timeline(l, runs, |runs|, finding), c, finding)
  }

  ghost function SumTallies(l: Ledger, runs: seq<RunId>, c: Clock, s: set<FindingId>): Tally {
    if s == {} then BLANK
    else
      var f :| f in s;
      FindingTally(l, runs, c, f).Plus(SumTallies(l, runs, c, s - {f}))
  }

  lemma PlusSwaps(a: Tally, b: Tally, c: Tally)
    ensures a.Plus(b.Plus(c)) == b.Plus(a.Plus(c))
  {}

  /** Any element can be taken out first. */
  lemma {:induction false} SumTalliesPick(l: Ledger, runs: seq<RunId>, c: Clock, s: set<FindingId>, x: FindingId)
    requires x in s
    ensures SumTallies(l, runs, c, s) == FindingTally(l, runs, c, x).Plus(SumTallies(l, runs, c, s - {x}))
    decreases s
  {
    var f :| f in s && SumTallies(l, runs, c, s) == FindingTally(l, runs, c, f).Plus(SumTallies(l, runs, c, s - {f}));
    if f != x {
      SumTalliesPick(l, runs, c, s - {f}, x);
      SumTalliesPick(l, runs, c, s - {x}, f);
      assert s - {f} - {x} == s - {x} - {f};
      PlusSwaps(FindingTally(l, runs, c, f), FindingTally(l, runs, c, x), SumTallies(l, runs, c, s - {x} - {f}));
    }
  }

  lemma SumTalliesInsert(l: Ledger, runs: seq<RunId>, c: Clock, s: set<FindingId>, x: FindingId)
    requires x !in s
    ensures SumTallies(l, runs, c, s + {x}) == FindingTally(l, runs, c, x).Plus(SumTallies(l, runs, c, s))
  {
    SumTalliesPick(l, runs, c, s + {x}, x);
    assert s + {x} - {x} == s;
  }

  /** A regression right after a resolution is counted at most once per resolution. */
  lemma {:induction false} RegressionRateBounded(events: seq<Event>, n: nat)
    requires n <= |events|
    ensures RegressedAfterResolve(events, n) <= CountOf(events[..n], Resolved)
  {
    if n > 0 {
      RegressionRateBounded(events, n - 1);
      assert events[..n][..n - 1] == events[..n - 1];
    }
  }

  /** Dismissed-then-absent transitions plus a first sighting already dismissed. */
  ghost function Artefacts(l: Ledger, runs: seq<RunId>, finding: FindingId): int {
    if finding in l.owner then
      SettledThenAbsent(l, runs, |runs|, finding) + FirstSightedSettled(l, runs, |runs|, finding)
    else 0
  }

  ghost function SumArtefacts(l: Ledger, runs: seq<RunId>, s: set<FindingId>): int {
    if s == {} then 0 else var f :| f in s; Artefacts(l, runs, f) + SumArtefacts(l, runs, s - {f})
  }

  /**
   Summed over any set of findings, the backlog delta plus the two dismissal
   artefacts is the number of findings still open.
   */
  lemma {:induction false} BacklogOfBucket(l: Ledger, runs: seq<RunId>, c: Clock, bucket: set<FindingId>)
    requires DistinctStarts(l) && RunsAscending(l, runs)
    requires bucket <= l.owner.Keys
    ensures SumTallies(l, runs, c, bucket).BacklogDelta() + SumArtefacts(l, runs, bucket)
            == SumTallies(l, runs, c, bucket).open
    decreases bucket
  {
    if bucket != {} {
      var f :| f in bucket
          && SumArtefacts(l, runs, bucket) == Artefacts(l, runs, f) + SumArtefacts(l, runs, bucket - {f});
      BacklogOfBucket(l, runs, c, bucket - {f});
      SumTalliesInsert(l, runs, c, bucket - {f}, f);
      assert bucket - {f} + {f} == bucket;
      BacklogOfFinding(l, runs, |runs|, f);
      assert FindingTally(l, runs, c, f).BacklogDelta() + Artefacts(l, runs, f) == FindingTally(l, runs, c, f).open;
    }
  }

  /** With no dismissed sighting anywhere the backlog delta is the open count itself. */
  lemma {:induction false} BacklogWithoutDismissals(l: Ledger, runs: seq<RunId>, c: Clock, bucket: set<FindingId>)
    requires DistinctStarts(l) && RunsAscending(l, runs)
    requires bucket <= l.owner.Keys
    requires forall k :: k in l.observed ==> !l.observed[k]
    ensures SumTallies(l, runs, c, bucket).BacklogDelta() == SumTallies(l, runs, c, bucket).open
    decreases bucket
  {
    BacklogOfBucket(l, runs, c, bucket);
    NoArtefacts(l, runs, bucket);
  }

  /** As many ages as open findings, and at most one time to resolution per finding that resolved. */
  predicate AgesMatch(t: Tally) { t.open == |t.ages| && |t.times| <= t.resolved }

  lemma PlusMatches(a: Tally, b: Tally)
    requires AgesMatch(a) && AgesMatch(b)
    ensures AgesMatch(a.Plus(b))
  {
    assert |a.ages + b.ages| == |a.ages| + |b.ages| && |a.times + b.times| == |a.times| + |b.times|;
  }

  lemma FindingMatches(events: seq<Event>, c: Clock, finding: FindingId)
    ensures AgesMatch(TallyOf(events, c, finding))
  {
    OneResolutionTime(events);
  }

  lemma {:induction false} OpenFindingsHaveAges(l: Ledger, runs: seq<RunId>, c: Clock, bucket: set<FindingId>)
    ensures AgesMatch(SumTallies(l, runs, c, bucket))
    decreases bucket
  {
    if bucket != {} {
      var f :| f in bucket
          && SumTallies(l, runs, c, bucket) == FindingTally(l, runs, c, f).Plus(SumTallies(l, runs, c, bucket - {f}));
      OpenFindingsHaveAges(l, runs, c, bucket - {f});
      FindingMatches(Timeline(l, runs, |runs|, f), c, f);
      PlusMatches(FindingTally(l, runs, c, f), SumTallies(l, runs, c, bucket - {f}));
    }
  }

  lemma {:induction false} OneResolutionTime(events: seq<Event>)
    ensures FirstResolution(events).Some? <==> CountOf(events, Resolved) > 0
    ensures OpenAtEnd(events) <= 1
    decreases |events|
  {
    if events != [] { OneResolutionTime(events[..|events| - 1]); }
  }

  lemma {:induction false} NoArtefacts(l: Ledger, runs: seq<RunId>, bucket: set<FindingId>)
    requires bucket <= l.owner.Keys
    requires forall k :: k in l.observed ==> !l.observed[k]
    ensures SumArtefacts(l, runs, bucket) == 0
    decreases bucket
  {
    if bucket != {} {
      var f :| f in bucket
          && SumArtefacts(l, runs, bucket) == Artefacts(l, runs, f) + SumArtefacts(l, runs, bucket - {f});
      NoArtefacts(l, runs, bucket - {f});
      assert forall i :: 0 <= i < |runs| ==> SightingIn(l, f, runs[i]) != Settled;
      ArtefactsNeedDismissals(l, runs, |runs|, f);
      assert Artefacts(l, runs, f) == 0;
    }
  }

  // ----- timelines built run by run -----

  ghost predicate AreTimelines(l: Ledger, ordered: seq<RunId>, n: nat, timeline: map<FindingId, seq<Event>>)
    requires n <= |ordered|
  {
    && timeline.Keys <= l.owner.Keys
    && (forall f :: f in timeline ==> timeline[f] != [])
    && (forall f :: f in l.owner ==> Timeline(l, ordered, n, f) == EntryOr(timeline, f))
  }

  lemma TimelineNext(l: Ledger, ordered: seq<RunId>, n: nat, finding: FindingId)
    requires n < |ordered|
    ensures Timeline(l, ordered, n + 1, finding) == Timeline(l, ordered, n, finding) +
            match Verdict(l, ordered[n], finding)
            case None => []
            case Some(v) => [(l.started[ordered[n]], v)]
  {}

  /** Each finding with a verdict gets one more event. */
  function Appended(before: map<FindingId, seq<Event>>, states: map<FindingId, DeltaState>,
                    ms: int): (after: map<FindingId, seq<Event>>)
    ensures after.Keys == before.Keys + states.Keys
    ensures forall f :: f in after ==>
              after[f] == (if f in before then before[f] else []) + (if f in states then [(ms, states[f])] else [])
  {
    map f | f in before.Keys + states.Keys ::
      (if f in before then before[f] else []) + (if f in states then [(ms, states[f])] else [])
  }

  lemma TableOwned(l: Ledger, run: RunId, states: map<FindingId, DeltaState>)
    requires IsVerdictTable(l, run, states)
    ensures states.Keys <= l.owner.Keys
  {
    forall f | f in states ensures f in l.owner { assert Verdict(l, run, f).Some?; }
  }

  /** Appending a run's verdict table to the timelines replayed so far. */
  lemma TimelinesStep(l: Ledger, ordered: seq<RunId>, n: nat, states: map<FindingId, DeltaState>, before: map<FindingId,
                      seq<Event>>)
    requires n < |ordered| && ordered[n] in l.started
    requires IsVerdictTable(l, ordered[n], states)
    requires AreTimelines(l, ordered, n, before)
    ensures AreTimelines(l, ordered, n + 1, Appended(before, states, l.started[ordered[n]]))
  {
    TableOwned(l, ordered[n], states);
    forall f | f in l.owner
      ensures Timeline(l, ordered, n + 1, f) == EntryOr(Appended(before, states, l.started[ordered[n]]), f)
    {
      TimelineEntry(l, ordered, n, f, states, before);
    }
  }

  function EntryOr(timeline: map<FindingId, seq<Event>>,
                   f: FindingId): seq<Event> { if f in timeline then timeline[f] else [] }

  /** One finding's entry. */
  lemma TimelineEntry(l: Ledger, ordered: seq<RunId>, n: nat, f: FindingId, states: map<FindingId, DeltaState>,
                      before: map<FindingId, seq<Event>>)
    requires n < |ordered| && ordered[n] in l.started && f in l.owner
    requires IsVerdictTable(l, ordered[n], states) && AreTimelines(l, ordered, n, before)
    ensures Timeline(l, ordered, n + 1, f) == EntryOr(Appended(before, states, l.started[ordered[n]]), f)
  {
    TimelineNext(l, ordered, n, f);
    assert f !in states ==> Verdict(l, ordered[n], f).None?;
  }

  // ----- the store -----

  class Store {
    var runs: map<RunId, int>
    var analyzed: set<(RunId, ProjectId)>
    var findings: map<FindingId, FindingRow>
    var observations: map<(FindingId, RunId), Observation>

    const sha: string -> string     // finding_evidence_sha

    constructor (sha: string -> string)
      ensures View() == Db(map[], {}, map[], map[]) && this.sha == sha
    {
      this.sha := sha;
      runs, analyzed, findings, observations := map[], {}, map[], map[];
    }

    function View(): Db
      reads this
    {
      Db(runs, analyzed, findings, observations)
    }

    function Ledger(): Ledger
      reads this
    {
      LedgerOf(View())
    }

    /** Record this run's sighting and apply the material-change rule. */
    method ObserveFinding(finding: FindingId, run: Option<RunId>, evidence: string, nowMs: int)
      modifies this`findings, this`observations
      ensures View() == Observe(old(View()), sha, finding, run, evidence, nowMs)
    {
      if run.None? { return; }
      if finding in findings && findings[finding].dismissalReason != "" {
        var row := findings[finding];
        if row.dismissedSha != "" && sha(evidence) != row.dismissedSha {
          findings := findings[finding := row.(resolvedMs := None, dismissalReason := "", dismissedSha := "")];
        } else {
          observations := observations[(finding, run.value) := Observation(nowMs, true)];
          return;
        }
      }
      observations := observations[(finding, run.value) := Observation(nowMs, false)];
    }

    /** The upsert that must not clear a dismissal, followed by the sighting. */
    method PersistFinding(finding: FindingId, f: Report, run: Option<RunId>, nowMs: int)
      modifies this`findings, this`observations
      ensures View() == Persist(old(View()), sha, finding, f, run, nowMs)
    {
      if finding in findings {
        findings := findings[finding := findings[finding].(severity := f.severity, evidence := f.evidence)];
      } else {
        findings := findings[finding := FreshRow(f, nowMs)];
      }
      ObserveFinding(finding, run, f.evidence, nowMs);
    }

    /** The agent path: same upsert, but the sighting is always recorded live. */
    method InsertFindingWithProvenance(finding: FindingId, f: Report, run: Option<RunId>, nowMs: int)
      modifies this`findings, this`observations
      ensures View() == InsertUnruled(old(View()), finding, f, run, nowMs)
    {
      if finding in findings {
        findings := findings[finding := findings[finding].(severity := f.severity, evidence := f.evidence)];
      } else {
        findings := findings[finding := FreshRow(f, nowMs)];
      }
      if run.Some? {
        observations := observations[(finding, run.value) := Observation(nowMs, false)];
      }
    }

    /** Dismiss with one of the four legal reasons, pinning the judged evidence. */
    method Dismiss(finding: FindingId, reason: string, nowMs: int) returns (r: Result<bool, string>)
      modifies this`findings
      ensures r.Failure? <==> reason !in DISMISSAL_REASONS
      ensures r.Success? ==> (r.value <==> finding in old(findings))
      ensures View() == DismissIn(old(View()), sha, finding, reason, nowMs)
    {
      if reason !in DISMISSAL_REASONS { return Failure("unknown dismissal reason"); }
      if finding !in findings { return Success(false); }
      var row := findings[finding];
      findings := findings[finding := row.(dismissalReason := reason, resolvedMs := Some(nowMs),
                                           dismissedSha := sha(row.evidence))];
      return Success(true);
    }

    /** Reverse a dismissal; the ledger rows stay as they are. */
    method Undismiss(finding: FindingId) returns (changed: bool)
      modifies this`findings
      ensures changed <==> finding in old(findings)
      ensures View() == UndismissIn(old(View()), finding)
    {
      changed := finding in findings;
      if changed {
        var row := findings[finding].(resolvedMs := None, dismissalReason := "", dismissedSha := "");
        findings := findings[finding := row];
      }
    }

    method StartRun(run: RunId, startedMs: int)
      modifies this`runs
      ensures View() == StartRunIn(old(View()), run, startedMs)
    {
      if run !in runs { runs := runs[run := startedMs]; }
    }

    method RecordAnalyzedProject(run: RunId, project: ProjectId)
      modifies this`analyzed
      ensures View() == old(View()).(analyzed := old(analyzed) + {(run, project)})
    {
      analyzed := analyzed + {(run, project)};
    }

    /** SELECT finding_id, resolved FROM finding_observations WHERE run_id = ? */
    method ObservationsOf(run: RunId) returns (obs: map<FindingId, bool>)
      ensures forall f :: f in obs <==> SightingIn(Ledger(), f, run) != Unreported
      ensures forall f :: f in obs ==> (obs[f] <==> SightingIn(Ledger(), f, run) == Settled)
    {
      obs := map k: (FindingId, RunId) | k in observations && k.1 == run :: k.0 := observations[k].resolved;
      forall f ensures f in obs <==> (f, run) in observations {
        if (f, run) in observations { assert (f, run).0 in obs; }
      }
    }

    /** The latest earlier run that analysed the project: ORDER BY started_ms DESC LIMIT 1. */
    method PredecessorQuery(project: ProjectId, beforeMs: int) returns (row: Option<RunId>)
      ensures row.Some? ==> IsPredecessor(Ledger(), project, beforeMs, row.value)
      ensures row.None? ==> forall r :: !(Analyses(Ledger(), r, project) && runs[r] < beforeMs)
    {
      ghost var l := Ledger();
      row := None;
      var todo := analyzed;
      while todo != {}
        invariant todo <= analyzed
        invariant row.Some? ==> Analyses(l, row.value, project) && runs[row.value] < beforeMs
        invariant forall r :: (r, project) in analyzed - todo && r in runs && runs[r] < beforeMs ==>
                    row.Some? && runs[r] <= runs[row.value]
        decreases todo
      {
        var a :| a in todo;
        todo := todo - {a};
        if a.1 == project && a.0 in runs && runs[a.0] < beforeMs {
          if row.None? || runs[row.value] < runs[a.0] {
            row := Some(a.0);
          }
        }
      }
    }

    /** Did an earlier run that analysed this project record the finding? */
    method ObservedBefore(finding: FindingId, project: ProjectId, beforeMs: int) returns (seen: bool)
      ensures seen <==> SeenBefore(Ledger(), finding, project, beforeMs)
    {
      seen := exists k :: k in observations && k.0 == finding && k.1 in runs
                && (k.1, project) in analyzed && runs[k.1] < beforeMs;
      ghost var l := Ledger();
      if SeenBefore(l, finding, project, beforeMs) {
        ghost var r :| Analyses(l, r, project) && l.started[r] < beforeMs && (finding, r) in l.observed;
        assert (finding, r) in observations;
      }
      if seen {
        ghost var k :| k in observations && k.0 == finding && k.1 in runs
                && (k.1, project) in analyzed && runs[k.1] < beforeMs;
        assert Analyses(l, k.1, project) && (finding, k.1) in l.observed;
      }
    }

    /** The state of a finding that the current run did record. */
    method ClassifyReported(finding: FindingId, project: ProjectId, resolvedNow: bool, currMs: int,
                            prevRun: Option<RunId>)
      returns (state: DeltaState)
      requires DistinctStarts(Ledger())
      requires prevRun.Some? ==> IsPredecessor(Ledger(), project, currMs, prevRun.value)
      requires prevRun.None? ==> forall r :: !(Analyses(Ledger(), r, project) && runs[r] < currMs)
      ensures Classify(PhaseAt(Ledger(), finding, project, currMs), if resolvedNow then Settled else Live)
              == Some(state)
    {
      if prevRun.None? {
        return if resolvedNow then Resolved else New;
      }
      PhaseOfPredecessor(Ledger(), finding, project, currMs, prevRun.value);
      var prev := ObservationsOf(prevRun.value);
      var wasSeen := finding in prev;
      var wasResolved := finding in prev && prev[finding];
      if !wasSeen {
        var before := ObservedBefore(finding, project, currMs);
        if before {
          wasSeen, wasResolved := true, true;
        }
      }
      if resolvedNow {
        state := if wasResolved then Dismissed else Resolved;
      } else if wasResolved {
        state := Regressed;
      } else if wasSeen {
        state := Persisting;
      } else {
        state := New;
      }
    }

    /** A finding recorded by the predecessor and unreported now. */
    lemma UnreportedVerdict(finding: FindingId, run: RunId, prev: RunId)
      requires DistinctStarts(Ledger())
      requires finding in findings && Analyses(Ledger(), run, findings[finding].project)
      requires SightingIn(Ledger(), finding, run) == Unreported
      requires IsPredecessor(Ledger(), findings[finding].project, runs[run], prev)
      ensures Verdict(Ledger(), run, finding) ==
              if SightingIn(Ledger(), finding, prev) == Unreported then None else Some(Resolved)
    {
      PhaseOfPredecessor(Ledger(), finding, findings[finding].project, runs[run], prev);
    }

    /** The runs the diff compares default to the latest analysing run. */
    method CurrentRun(runId: Option<RunId>) returns (curr: Option<RunId>)
      ensures curr.Some? ==> exists r :: AnalysesAny(Ledger(), r)
      ensures curr.None? ==> forall r :: !AnalysesAny(Ledger(), r)
      ensures curr.Some? && runId.Some? ==> curr == runId
      ensures curr.Some? && runId.None? ==>
                AnalysesAny(Ledger(), curr.value) &&
                forall r :: AnalysesAny(Ledger(), r) ==> runs[r] <= runs[curr.value]
    {
      ghost var l := Ledger();
      var todo := analyzed;
      curr := None;
      while todo != {}
        invariant todo <= analyzed
        invariant curr.Some? ==> AnalysesAny(l, curr.value)
        invariant forall a :: a in analyzed - todo && a.0 in runs ==> curr.Some? && runs[a.0] <= runs[curr.value]
        decreases todo
      {
        var a :| a in todo;
        todo := todo - {a};
        if a.0 in runs {
          assert AnalysesAny(l, a.0);
          if curr.None? || runs[curr.value] < runs[a.0] {
            curr := Some(a.0);
          }
        }
      }
      if curr.Some? && runId.Some? {
        curr := runId;
      }
    }

    /** The per-project predecessor of a run, for the projects it analysed. */
    ghost predicate ArePredecessors(projects: set<ProjectId>, currMs: int, prevByProject: map<ProjectId, RunId>)
      reads this
    {
      && prevByProject.Keys <= projects
      && (forall p :: p in prevByProject ==> IsPredecessor(Ledger(), p, currMs, prevByProject[p]))
      && (forall p, r :: p in projects && p !in prevByProject ==> !(Analyses(Ledger(), r, p) && runs[r] < currMs))
    }

    method PredecessorsOf(projects: set<ProjectId>, currMs: int) returns (prevByProject: map<ProjectId, RunId>)
      ensures ArePredecessors(projects, currMs, prevByProject)
    {
      prevByProject := map[];
      var todo := projects;
      while todo != {}
        invariant todo <= projects
        invariant ArePredecessors(projects - todo, currMs, prevByProject)
        decreases todo
      {
        var p :| p in todo;
        todo := todo - {p};
        var row := PredecessorQuery(p, currMs);
        if row.Some? { prevByProject := prevByProject[p := row.value]; }
      }
      assert projects - todo == projects;
    }

    /** Verdicts for the findings the run recorded. */
    method ReportedStates(run: RunId, projects: set<ProjectId>, currAll: map<FindingId, bool>,
                          prevByProject: map<ProjectId, RunId>)
      returns (states: map<FindingId, DeltaState>)
      requires DistinctStarts(Ledger()) && run in runs
      requires forall p :: p in projects <==> (run, p) in analyzed
      requires ArePredecessors(projects, runs[run], prevByProject)
      requires forall f :: f in currAll <==> SightingIn(Ledger(), f, run) != Unreported
      requires forall f :: f in currAll ==> (currAll[f] <==> SightingIn(Ledger(), f, run) == Settled)
      ensures forall f :: f in states ==> f in currAll && Verdict(Ledger(), run, f) == Some(states[f])
      ensures forall f :: f in currAll && Verdict(Ledger(), run, f).Some? ==> f in states
    {
      states := map[];
      var fids := currAll.Keys;
      while fids != {}
        invariant fids <= currAll.Keys
        invariant forall f :: f in states ==> f in currAll.Keys - fids && Verdict(Ledger(), run, f) == Some(states[f])
        invariant forall f :: f in currAll.Keys - fids && Verdict(Ledger(), run, f).Some? ==> f in states
        decreases fids
      {
        var f :| f in fids;
        fids := fids - {f};
        if f in findings && findings[f].project in projects {
          var p := findings[f].project;
          var state := ClassifyReported(f, p, currAll[f], runs[run],
                                        if p in prevByProject then Some(prevByProject[p]) else None);
          states := states[f := state];
        }
      }
    }

    /** `gone` are the findings of the named projects that the run left unreported but gave a verdict. */
    ghost predicate AreGone(l: Ledger, run: RunId, among: set<ProjectId>, currAll: map<FindingId, bool>,
                            gone: set<FindingId>) {
      && (forall f :: f in gone ==> f !in currAll && Verdict(l, run, f) == Some(Resolved))
      && (forall f :: f in l.owner && f !in currAll && l.owner[f] in among && Verdict(l, run, f).Some? ==> f in gone)
    }

    method GoneFrom(run: RunId, p: ProjectId, currAll: map<FindingId, bool>,
                    prevRun: RunId) returns (gone: set<FindingId>)
      requires DistinctStarts(Ledger()) && run in runs && (run, p) in analyzed
      requires IsPredecessor(Ledger(), p, runs[run], prevRun)
      requires forall f :: f in currAll <==> SightingIn(Ledger(), f, run) != Unreported
      ensures AreGone(Ledger(), run, {p}, currAll, gone)
    {
      var prev := ObservationsOf(prevRun);
      gone := set f | f in prev && f !in currAll && f in findings && findings[f].project == p;
      forall f | f in findings && findings[f].project == p && f !in currAll
        ensures Verdict(Ledger(), run, f) == if f in gone then Some(Resolved) else None
      {
        UnreportedVerdict(f, run, prevRun);
      }
    }

    lemma GoneUnion(l: Ledger, run: RunId, a: set<ProjectId>, b: set<ProjectId>, currAll: map<FindingId, bool>,
                    goneA: set<FindingId>, goneB: set<FindingId>)
      requires AreGone(l, run, a, currAll, goneA) && AreGone(l, run, b, currAll, goneB)
      ensures AreGone(l, run, a + b, currAll, goneA + goneB)
    {}

    /** Findings the predecessor recorded and this run did not. */
    method UnreportedStates(run: RunId, currAll: map<FindingId, bool>, prevByProject: map<ProjectId, RunId>)
      returns (states: map<FindingId, DeltaState>)
      requires DistinctStarts(Ledger()) && run in runs
      requires forall p :: p in prevByProject ==>
                 (run, p) in analyzed && IsPredecessor(Ledger(), p, runs[run], prevByProject[p])
      requires forall f :: f in currAll <==> SightingIn(Ledger(), f, run) != Unreported
      ensures AreGone(Ledger(), run, prevByProject.Keys, currAll, states.Keys)
      ensures forall f :: f in states ==> states[f] == Resolved
    {
      ghost var l := Ledger();
      states := map[];
      var left := prevByProject.Keys;
      while left != {}
        invariant left <= prevByProject.Keys
        invariant forall f :: f in states ==> states[f] == Resolved
        invariant AreGone(l, run, prevByProject.Keys - left, currAll, states.Keys)
        decreases left
      {
        var p :| p in left;
        var gone := GoneFrom(run, p, currAll, prevByProject[p]);
        GoneUnion(l, run, prevByProject.Keys - left, {p}, currAll, states.Keys, gone);
        assert prevByProject.Keys - (left - {p}) == prevByProject.Keys - left + {p};
        left := left - {p};
        states := states + map f | f in gone :: Resolved;
      }
    }

    /** The state table of the run a query is about; `of` names that run. */
    ghost predicate AnswersFor(runId: Option<RunId>, of: Option<RunId>, states: map<FindingId, DeltaState>)
      reads this
    {
      && (runId.Some? ==> of == runId)
      && (runId.None? && of.Some? ==>
            AnalysesAny(Ledger(), of.value) && forall r :: AnalysesAny(Ledger(), r) ==> runs[r] <= runs[of.value])
      && (of.Some? ==> IsVerdictTable(Ledger(), of.value, states))
      && (of.None? ==> states == map[] && forall r :: !AnalysesAny(Ledger(), r))
    }

    lemma VerdictNeedsAnalysis(run: RunId, f: FindingId)
      ensures Verdict(Ledger(), run, f).Some? ==> run in runs && AnalysesAny(Ledger(), run)
    {
      if run in runs && f in findings && (run, findings[f].project) in analyzed {
        assert AnalysesAny(Ledger(), run);
      }
    }

    lemma NoRowsNoVerdicts(run: RunId)
      requires run !in runs || forall r :: !AnalysesAny(Ledger(), r)
      ensures IsVerdictTable(Ledger(), run, map[])
    {
      forall f ensures Verdict(Ledger(), run, f).None? { VerdictNeedsAnalysis(run, f); }
    }

    lemma FirstAnalysisHasNoHistory(run: RunId, finding: FindingId)
      requires finding in findings && run in runs && SightingIn(Ledger(), finding, run) == Unreported
      requires forall r :: !(Analyses(Ledger(), r, findings[finding].project) && runs[r] < runs[run])
      ensures Verdict(Ledger(), run, finding).None?
    {}

    /** finding_id -> delta state for the given run, or for the latest analysing run; `of` is the run answered for. */
    method DeltaStates(runId: Option<RunId>) returns (states: map<FindingId, DeltaState>, of: Option<RunId>)
      requires DistinctStarts(Ledger())
      ensures AnswersFor(runId, of, states)
    {
      var curr := CurrentRun(runId);
      of := if runId.Some? then runId else curr;
      if curr.None? || curr.value !in runs {
        if of.Some? { NoRowsNoVerdicts(of.value); }
        return map[], of;
      }
      var run := curr.value;
      var projects := set a | a in analyzed && a.0 == run :: a.1;
      forall p ensures p in projects <==> (run, p) in analyzed {
        if (run, p) in analyzed { assert (run, p).1 in projects; }
      }
      var prevByProject := PredecessorsOf(projects, runs[run]);
      var currAll := ObservationsOf(run);
      var reported := ReportedStates(run, projects, currAll, prevByProject);
      var gone := UnreportedStates(run, currAll, prevByProject);
      states := reported + gone;
      forall f | Verdict(Ledger(), run, f).Some? ensures f in states {
        if f !in currAll && findings[f].project !in prevByProject {
          FirstAnalysisHasNoHistory(run, f);
        }
      }
    }

    /** SELECT DISTINCT run_id ... ORDER BY started_ms ASC. */
    method AnalysingRunsAscending() returns (ordered: seq<RunId>)
      requires DistinctStarts(Ledger())
      ensures RunsAscending(Ledger(), ordered)
    {
      ghost var l := Ledger();
      var todo := set a | a in analyzed && a.0 in runs :: a.0;
      assert forall r :: r in todo <==> AnalysesAny(l, r);
      ordered := [];
      while todo != {}
        invariant forall r :: r in todo ==> AnalysesAny(l, r)
        invariant forall r :: AnalysesAny(l, r) ==> r in todo || r in ordered
        invariant forall i :: 0 <= i < |ordered| ==> AnalysesAny(l, ordered[i])
        invariant forall i, j :: 0 <= i < j < |ordered| ==> runs[ordered[i]] < runs[ordered[j]]
        invariant forall i, r :: 0 <= i < |ordered| && r in todo ==> runs[ordered[i]] < runs[r]
        decreases todo
      {
        var first := EarliestOf(todo);
        todo := todo - {first};
        ordered := ordered + [first];
      }
    }

    method EarliestOf(among: set<RunId>) returns (first: RunId)
      requires among != {} && forall r :: r in among ==> r in runs
      ensures first in among && forall r :: r in among ==> runs[first] <= runs[r]
    {
      first :| first in among;
      var todo := among - {first};
      while todo != {}
        invariant todo <= among && first in among
        invariant forall r :: r in among - todo ==> runs[first] <= runs[r]
        decreases todo
      {
        var r :| r in todo;
        todo := todo - {r};
        if runs[r] < runs[first] { first := r; }
      }
    }

    /** Creation times of all findings, and SELECT MIN(observed_ms) ... GROUP BY finding_id. */
    ghost predicate IsClock(c: Clock, now: int)
      reads this
    {
      && c.now == now && c.created.Keys == findings.Keys
      && (forall f :: f in findings ==> c.created[f] == findings[f].createdMs)
      && (forall f :: f in c.firstSeen ==>
            exists r :: (f, r) in observations && observations[(f, r)].observedMs == c.firstSeen[f])
      && forall f, r :: (f, r) in observations ==>
           f in c.firstSeen && c.firstSeen[f] <= observations[(f, r)].observedMs
    }

    method TakeClock(now: int) returns (c: Clock)
      ensures IsClock(c, now)
    {
      var firstSeen: map<FindingId, int> := map[];
      var todo := observations.Keys;
      while todo != {}
        invariant todo <= observations.Keys
        invariant forall f :: f in firstSeen ==>
                    exists r :: (f, r) in observations && observations[(f, r)].observedMs == firstSeen[f]
        invariant forall f, r :: (f, r) in observations.Keys - todo ==>
                    f in firstSeen && firstSeen[f] <= observations[(f, r)].observedMs
        decreases todo
      {
        var k :| k in todo;
        var ms := observations[k].observedMs;
        assert (k.0, k.1) in observations;
        todo := todo - {k};
        if k.0 !in firstSeen || ms < firstSeen[k.0] { firstSeen := firstSeen[k.0 := ms]; }
      }
      c := Clock(now, map f | f in findings :: findings[f].createdMs, firstSeen);
    }

    /** Replays the classifier once per analysing run. */
    method Timelines(ordered: seq<RunId>) returns (timeline: map<FindingId, seq<Event>>)
      requires DistinctStarts(Ledger()) && RunsAscending(Ledger(), ordered)
      ensures AreTimelines(Ledger(), ordered, |ordered|, timeline)
    {
      timeline := map[];
      for n := 0 to |ordered|
        invariant AreTimelines(Ledger(), ordered, n, timeline)
      {
        assert AnalysesAny(Ledger(), ordered[n]);
        var states, _ := DeltaStates(Some(ordered[n]));
        TimelinesStep(Ledger(), ordered, n, states, timeline);
        timeline := Appended(timeline, states, runs[ordered[n]]);
      }
    }
  }

  /** One finding's events, counted with the look-ahead for regressions. */
  method TallyEvents(events: seq<Event>, c: Clock, finding: FindingId) returns (t: Tally)
    requires events != []
    ensures t == TallyOf(events, c, finding)
  {
    var news, regressed, resolved, after := 0, 0, 0, 0;
    var firstResolve: Option<int> := None;
    for i := 0 to |events|
      invariant news == CountOf(events[..i], New) && regressed == CountOf(events[..i], Regressed)
      invariant resolved == CountOf(events[..i], Resolved) && after == RegressedAfterResolve(events, i)
      invariant firstResolve == FirstResolution(events[..i])
    {
      assert events[..i + 1][..i] == events[..i];
      match events[i].1
      case New => news := news + 1;
      case Regressed => regressed := regressed + 1;
      case Resolved =>
        resolved := resolved + 1;
        if firstResolve.None? { firstResolve := Some(events[i].0); }
        if i + 1 < |events| && events[i + 1].1 == Regressed { after := after + 1; }
      case _ =>
    }
    assert events[..|events|] == events;
    var open := IsOpen(events[|events| - 1].1);
    t := Tally(news, regressed, resolved, after, 0, if open then 1 else 0,
               if open then multiset{AgeOf(c, finding)} else multiset{}, TimesOf(c, finding, firstResolve));
  }

  function Bump(acc: map<string, Tally>, key: string, t: Tally): map<string, Tally> {
    acc[key := t.Plus(if key in acc then acc[key] else BLANK)]
  }

  /** The findings done so far that share a key. */
  function Bucket(keyOf: map<FindingId, string>, done: set<FindingId>, key: string): set<FindingId>
    requires done <= keyOf.Keys
  {
    set f | f in done && keyOf[f] == key
  }

  /** The accumulator holds, per key, the sum over the findings done so far. */
  ghost predicate IsBucketed(l: Ledger, runs: seq<RunId>, c: Clock, acc: map<string, Tally>,
                             keyOf: map<FindingId, string>, done: set<FindingId>)
    requires done <= keyOf.Keys
  {
    && (forall k :: k in acc <==> exists f :: f in done && keyOf[f] == k)
    && (forall k :: k in acc ==> acc[k] == SumTallies(l, runs, c, Bucket(keyOf, done, k)))
  }

  lemma BucketGrows(keyOf: map<FindingId, string>, done: set<FindingId>, f: FindingId, k: string)
    requires done <= keyOf.Keys && f in keyOf
    ensures Bucket(keyOf, done + {f}, k) == Bucket(keyOf, done, k) + if keyOf[f] == k then {f} else {}
  {}

  lemma PlusBlank(t: Tally)
    ensures t.Plus(BLANK) == t
  {}

  /** The bumped bucket. */
  lemma BumpedSum(l: Ledger, runs: seq<RunId>, c: Clock, acc: map<string, Tally>, keyOf: map<FindingId, string>,
                  done: set<FindingId>, f: FindingId)
    requires done <= keyOf.Keys && f in keyOf && f !in done
    requires IsBucketed(l, runs, c, acc, keyOf, done)
    ensures Bump(acc, keyOf[f], FindingTally(l, runs, c, f))[keyOf[f]]
            == SumTallies(l, runs, c, Bucket(keyOf, done + {f}, keyOf[f]))
  {
    var key := keyOf[f];
    BucketGrows(keyOf, done, f, key);
    SumTalliesInsert(l, runs, c, Bucket(keyOf, done, key), f);
    if key !in acc {
      assert Bucket(keyOf, done, key) == {};
      PlusBlank(FindingTally(l, runs, c, f));
    }
  }

  lemma BumpKeepsBuckets(l: Ledger, runs: seq<RunId>, c: Clock, acc: map<string, Tally>, keyOf: map<FindingId, string>,
                         done: set<FindingId>, f: FindingId)
    requires done <= keyOf.Keys && f in keyOf && f !in done
    requires IsBucketed(l, runs, c, acc, keyOf, done)
    ensures IsBucketed(l, runs, c, Bump(acc, keyOf[f], FindingTally(l, runs, c, f)), keyOf, done + {f})
  {
    var key := keyOf[f];
    var after := Bump(acc, key, FindingTally(l, runs, c, f));
    BumpedSum(l, runs, c, acc, keyOf, done, f);
    forall k | k in after && k != key ensures after[k] == SumTallies(l, runs, c, Bucket(keyOf, done + {f}, k)) {
      BucketGrows(keyOf, done, f, k);
      assert Bucket(keyOf, done + {f}, k) == Bucket(keyOf, done, k);
    }
    forall k ensures k in after <==> exists x :: x in done + {f} && keyOf[x] == k {
      if k == key { assert f in done + {f}; }
    }
  }

  /** `done` and `todo` make up all. */
  predicate Parts(all: set<FindingId>, done: set<FindingId>, todo: set<FindingId>) {
    done !! todo && all == done + todo
  }

  lemma PartsNext(all: set<FindingId>, done: set<FindingId>, todo: set<FindingId>, f: FindingId)
    requires Parts(all, done, todo) && f in todo
    ensures f !in done && f in all && Parts(all, done + {f}, todo - {f})
  {}

  method TallyUnobserved(ghost l: Ledger, ghost runs: seq<RunId>, c: Clock, keyOf: map<FindingId, string>,
                         unobserved: set<FindingId>)
    returns (metrics: map<string, Tally>)
    requires unobserved <= keyOf.Keys
    requires forall f :: f in unobserved ==> Timeline(l, runs, |runs|, f) == []
    ensures IsBucketed(l, runs, c, metrics, keyOf, unobserved)
  {
    metrics := map[];
    var todo := unobserved;
    ghost var done: set<FindingId> := {};
    while todo != {}
      invariant Parts(unobserved, done, todo) && IsBucketed(l, runs, c, metrics, keyOf, done)
      decreases todo
    {
      var f :| f in todo;
      PartsNext(unobserved, done, todo, f);
      BumpKeepsBuckets(l, runs, c, metrics, keyOf, done, f);
      assert FindingTally(l, runs, c, f) == BLANK.(notObserved := 1);
      metrics := Bump(metrics, keyOf[f], BLANK.(notObserved := 1));
      done, todo := done + {f}, todo - {f};
    }
    assert done == unobserved;
  }

  method TallyObserved(ghost l: Ledger, ghost runs: seq<RunId>, c: Clock, keyOf: map<FindingId, string>,
                       timeline: map<FindingId, seq<Event>>, start: map<string, Tally>)
    returns (metrics: map<string, Tally>)
    requires timeline.Keys <= keyOf.Keys
    requires forall f :: f in timeline ==> timeline[f] != [] && timeline[f] == Timeline(l, runs, |runs|, f)
    requires IsBucketed(l, runs, c, start, keyOf, keyOf.Keys - timeline.Keys)
    ensures IsBucketed(l, runs, c, metrics, keyOf, keyOf.Keys)
  {
    metrics := start;
    var todo := timeline.Keys;
    ghost var done := keyOf.Keys - timeline.Keys;
    while todo != {}
      invariant todo <= timeline.Keys && Parts(keyOf.Keys, done, todo)
      invariant IsBucketed(l, runs, c, metrics, keyOf, done)
      decreases todo
    {
      var f :| f in todo;
      PartsNext(keyOf.Keys, done, todo, f);
      var t := TallyEvents(timeline[f], c, f);
      BumpKeepsBuckets(l, runs, c, metrics, keyOf, done, f);
      metrics := Bump(metrics, keyOf[f], t);
      done, todo := done + {f}, todo - {f};
    }
    assert done == keyOf.Keys;
  }

  /** Lifecycle metrics per bucket of one dimension (category or severity). */
  method FindingMetrics(store: Store, keyOf: map<FindingId, string>, now: int)
    returns (metrics: map<string, Tally>, ordered: seq<RunId>, clock: Clock)
    requires DistinctStarts(store.Ledger()) && keyOf.Keys == store.findings.Keys
    ensures RunsAscending(store.Ledger(), ordered) && store.IsClock(clock, now)
    ensures IsBucketed(store.Ledger(), ordered, clock, metrics, keyOf, keyOf.Keys)
    ensures forall k :: k in metrics ==>
              && metrics[k].BacklogDelta() + SumArtefacts(store.Ledger(), ordered, Bucket(keyOf, keyOf.Keys, k))
                 == metrics[k].open
              && AgesMatch(metrics[k])
  {
    ordered := store.AnalysingRunsAscending();
    clock := store.TakeClock(now);
    ghost var l, runs, c := store.Ledger(), ordered, clock;
    var timeline := store.Timelines(ordered);
    metrics := TallyUnobserved(l, runs, clock, keyOf, keyOf.Keys - timeline.Keys);
    metrics := TallyObserved(l, runs, clock, keyOf, timeline, metrics);
    forall k | k in metrics
      ensures metrics[k].BacklogDelta() + SumArtefacts(l, runs, Bucket(keyOf, keyOf.Keys, k)) == metrics[k].open
      ensures AgesMatch(metrics[k])
    {
      BacklogOfBucket(l, runs, c, Bucket(keyOf, keyOf.Keys, k));
      OpenFindingsHaveAges(l, runs, c, Bucket(keyOf, keyOf.Keys, k));
    }
  }

  /** What is reported of a bucket. */
  datatype Metric = Metric(
    notObserved: int,
    resolveEvents: int,
    timeToResolve: Option<real>,
    regressionRate: Option<real>,
    backlogDelta: int,
    openCount: int,
    ageP50: Option<real>,
    ageP90: Option<real>)

  /** The values in ascending order. */
  ghost predicate IsSorting(s: seq<int>, m: multiset<int>) { multiset(s) == m && Ascending(s) && s != [] }

  /** The report of one bucket: median time to resolution, unrounded rate, and two percentiles of the ages. */
  method Finalize(t: Tally) returns (m: Metric)
    ensures m.notObserved == t.notObserved && m.resolveEvents == t.resolved && m.backlogDelta == t.BacklogDelta()
    ensures m.openCount == |t.ages|
    ensures m.regressionRate
            == if t.resolved == 0 then None else Some(t.regressedAfterResolve as real / t.resolved as real)
    ensures m.timeToResolve.None? <==> |t.times| == 0
    ensures m.timeToResolve.Some? ==> exists s :: IsSorting(s, t.times) && m.timeToResolve.value == Median(s)
    ensures (m.ageP50.None? <==> |t.ages| == 0) && (m.ageP90.None? <==> |t.ages| == 0)
    ensures |t.ages| > 0 ==>
              exists s :: IsSorting(s, t.ages) && m.ageP50 == Some(Median(s)) && m.ageP90 == Some(Percentile(s, 90.0))
  {
    var times := Sorted(t.times);
    var ages := Sorted(t.ages);
    assert |times| == |t.times| && |ages| == |t.ages|;
    assert times != [] ==> IsSorting(times, t.times);
    assert ages != [] ==> IsSorting(ages, t.ages);
    if ages != [] { FiftiethIsMedian(ages); }
    m := Metric(t.notObserved, t.resolved,
                if times == [] then None else Some(Median(times)),
                if t.resolved == 0 then None else Some(t.regressedAfterResolve as real / t.resolved as real),
                t.BacklogDelta(), |ages|,
                if ages == [] then None else Some(Percentile(ages, 50.0)),
                if ages == [] then None else Some(Percentile(ages, 90.0)));
  }
}
