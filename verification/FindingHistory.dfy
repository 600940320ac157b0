/**
 Replaying the classifier over every analysing run, oldest first.  The theorems
 here are inductions over unbounded run histories: the grammar of a finding's
 timeline, exact backlog accounting, and stability of old verdicts.
 */
module FindingHistory {
  import opened Wrappers
  import opened FindingLedger

  type Event = (int, DeltaState)

  predicate IsOpen(s: DeltaState) { s == New || s == Persisting || s == Regressed }

  /** Every analysing run once, in ascending start time. */
  ghost predicate RunsAscending(l: Ledger, runs: seq<RunId>) {
    && (forall i :: 0 <= i < |runs| ==> AnalysesAny(l, runs[i]))
    && (forall r :: AnalysesAny(l, r) ==> r in runs)
    && (forall i, j :: 0 <= i < j < |runs| ==> l.started[runs[i]] < l.started[runs[j]])
  }

  /** The timeline of one finding over the first `n` runs. */
  ghost function Timeline(l: Ledger, runs: seq<RunId>, n: nat, finding: FindingId): (events: seq<Event>)
    requires n <= |runs|
  {
    if n == 0 then []
    else
      match Verdict(l, runs[n - 1], finding)
      case None => Timeline(l, runs, n - 1, finding)
      case Some(v) => Timeline(l, runs, n - 1, finding) + [(l.started[runs[n - 1]], v)]
  }

  /** The phase after the first `n` runs, as a fold that never looks back. */
  ghost function PhaseAfter(l: Ledger, runs: seq<RunId>, n: nat, finding: FindingId): Phase
    requires finding in l.owner && n <= |runs|
  {
    if n == 0 then NeverSeen
    else if Analyses(l, runs[n - 1], l.owner[finding]) then
      NextPhase(PhaseAfter(l, runs, n - 1, finding), SightingIn(l, finding, runs[n - 1]))
    else
      PhaseAfter(l, runs, n - 1, finding)
  }

  /** The last of the first `n` runs that analysed project `p`. */
  ghost predicate LastAnalysing(l: Ledger, runs: seq<RunId>, n: nat, p: ProjectId, i: nat)
    requires n <= |runs|
  {
    && i < n && Analyses(l, runs[i], p)
    && forall j :: i < j < n ==> !Analyses(l, runs[j], p)
  }

  ghost predicate SightedAmong(l: Ledger, runs: seq<RunId>, n: nat, finding: FindingId, p: ProjectId)
    requires n <= |runs|
  {
    exists i :: 0 <= i < n && Analyses(l, runs[i], p) && SightingIn(l, finding, runs[i]) != Unreported
  }

  lemma {:induction false} NeverSeenMeansUnsighted(l: Ledger, runs: seq<RunId>, n: nat, finding: FindingId)
    requires finding in l.owner && n <= |runs|
    ensures PhaseAfter(l, runs, n, finding) == NeverSeen <==> !SightedAmong(l, runs, n, finding, l.owner[finding])
  {
    if n > 0 {
      NeverSeenMeansUnsighted(l, runs, n - 1, finding);
    }
  }

  /** A seen finding's phase is what the last analysing run says. */
  lemma {:induction false} PhaseOfLastAnalysing(l: Ledger, runs: seq<RunId>, n: nat,
                                                finding: FindingId) returns (i: nat)
    requires finding in l.owner && n <= |runs|
    requires PhaseAfter(l, runs, n, finding) != NeverSeen
    ensures LastAnalysing(l, runs, n, l.owner[finding], i)
    ensures match SightingIn(l, finding, runs[i])
            case Live => PhaseAfter(l, runs, n, finding) == LastLive
            case Settled => PhaseAfter(l, runs, n, finding) == LastSettled
            case Unreported => PhaseAfter(l, runs, n, finding) == LastAbsent
  {
    if Analyses(l, runs[n - 1], l.owner[finding]) {
      i := n - 1;
    } else {
      i := PhaseOfLastAnalysing(l, runs, n - 1, finding);
    }
  }

  /** A run analysing `p` starts before the n-th run exactly when it is one of the first n. */
  lemma EarlierMeansPrefix(l: Ledger, runs: seq<RunId>, n: nat, r: RunId, p: ProjectId) returns (k: nat)
    requires RunsAscending(l, runs) && n < |runs| && Analyses(l, r, p)
    ensures k < |runs| && runs[k] == r
    ensures l.started[r] < l.started[runs[n]] <==> k < n
  {
    assert (r, p) in l.analyzed;
    assert AnalysesAny(l, r);
    k :| 0 <= k < |runs| && runs[k] == r;
  }

  /** The query-shaped phase (predecessor plus look-back) is the fold. */
  lemma PhaseIsFold(l: Ledger, runs: seq<RunId>, n: nat, finding: FindingId)
    requires DistinctStarts(l) && RunsAscending(l, runs)
    requires finding in l.owner && n < |runs|
    ensures PhaseAt(l, finding, l.owner[finding], l.started[runs[n]]) == PhaseAfter(l, runs, n, finding)
  {
    var p, ms := l.owner[finding], l.started[runs[n]];
    NeverSeenMeansUnsighted(l, runs, n, finding);
    SeenBeforeMeansSighted(l, runs, n, finding);
    if PhaseAfter(l, runs, n, finding) == NeverSeen {
      if q :| IsPredecessor(l, p, ms, q) {
        PhaseOfPredecessor(l, finding, p, ms, q);
      }
    } else {
      var i := PhaseOfLastAnalysing(l, runs, n, finding);
      forall r | Analyses(l, r, p) && l.started[r] < ms
        ensures l.started[r] <= l.started[runs[i]]
      {
        var k := EarlierMeansPrefix(l, runs, n, r, p);
        assert k <= i;
      }
      assert IsPredecessor(l, p, ms, runs[i]);
      PhaseOfPredecessor(l, finding, p, ms, runs[i]);
    }
  }

  lemma SeenBeforeMeansSighted(l: Ledger, runs: seq<RunId>, n: nat, finding: FindingId)
    requires RunsAscending(l, runs) && finding in l.owner && n < |runs|
    ensures SeenBefore(l, finding, l.owner[finding], l.started[runs[n]])
            <==> SightedAmong(l, runs, n, finding, l.owner[finding])
  {
    var p, ms := l.owner[finding], l.started[runs[n]];
    if SeenBefore(l, finding, p, ms) {
      var r :| Analyses(l, r, p) && l.started[r] < ms && (finding, r) in l.observed;
      var k := EarlierMeansPrefix(l, runs, n, r, p);
      assert SightingIn(l, finding, runs[k]) != Unreported;
    }
    if SightedAmong(l, runs, n, finding, p) {
      var i :| 0 <= i < n && Analyses(l, runs[i], p) && SightingIn(l, finding, runs[i]) != Unreported;
      assert (finding, runs[i]) in l.observed;
    }
  }

  /** The automaton's step at the n-th run. */
  ghost function StepAt(l: Ledger, runs: seq<RunId>, n: nat, finding: FindingId): Option<DeltaState>
    requires finding in l.owner && n < |runs|
  {
    if !Analyses(l, runs[n], l.owner[finding]) then None
    else Classify(PhaseAfter(l, runs, n, finding), SightingIn(l, finding, runs[n]))
  }

  /** The timeline produced by the automaton alone. */
  ghost function Replay(l: Ledger, runs: seq<RunId>, n: nat, finding: FindingId): (events: seq<Event>)
    requires finding in l.owner && n <= |runs|
  {
    if n == 0 then []
    else
      match StepAt(l, runs, n - 1, finding)
      case None => Replay(l, runs, n - 1, finding)
      case Some(v) => Replay(l, runs, n - 1, finding) + [(l.started[runs[n - 1]], v)]
  }

  lemma VerdictIsStep(l: Ledger, runs: seq<RunId>, n: nat, finding: FindingId)
    requires DistinctStarts(l) && RunsAscending(l, runs)
    requires finding in l.owner && n < |runs|
    ensures Verdict(l, runs[n], finding) == StepAt(l, runs, n, finding)
  {
    PhaseIsFold(l, runs, n, finding);
  }

  lemma SameAppend(l: Ledger, runs: seq<RunId>, n: nat, finding: FindingId)
    requires finding in l.owner && n < |runs|
    requires Timeline(l, runs, n, finding) == Replay(l, runs, n, finding)
    requires Verdict(l, runs[n], finding) == StepAt(l, runs, n, finding)
    ensures Timeline(l, runs, n + 1, finding) == Replay(l, runs, n + 1, finding)
  {}

  /** Replaying the query-shaped classifier run by run is running the automaton. */
  lemma {:induction false} TimelineIsReplay(l: Ledger, runs: seq<RunId>, n: nat, finding: FindingId)
    requires DistinctStarts(l) && RunsAscending(l, runs)
    requires finding in l.owner && n <= |runs|
    ensures Timeline(l, runs, n, finding) == Replay(l, runs, n, finding)
  {
    if n > 0 {
      TimelineIsReplay(l, runs, n - 1, finding);
      VerdictIsStep(l, runs, n - 1, finding);
      SameAppend(l, runs, n - 1, finding);
    }
  }

  /** Which event may directly follow which. */
  predicate MayFollow(before: DeltaState, after: DeltaState) {
    match after
    case New => false
    case Persisting => IsOpen(before)
    case Regressed => before == Resolved || before == Dismissed
    case Dismissed => before == Resolved || before == Dismissed
    case Resolved => true
  }

  predicate Grammatical(events: seq<Event>) {
    && (events != [] ==> events[0].1 == New || events[0].1 == Resolved)
    && forall i :: 0 < i < |events| ==>
         MayFollow(events[i - 1].1, events[i].1) && events[i - 1].0 < events[i].0
  }

  /** The phase remembers exactly how the timeline ended. */
  predicate PhaseMatchesEnd(phase: Phase, events: seq<Event>) {
    if events == [] then phase == NeverSeen
    else
      var end := events[|events| - 1].1;
      match phase
      case NeverSeen => false
      case LastLive => IsOpen(end)
      case LastSettled => end == Resolved || end == Dismissed
      case LastAbsent => end == Resolved
  }

  lemma GrammaticalAppend(events: seq<Event>, e: Event)
    requires Grammatical(events)
    requires if events == [] then e.1 == New || e.1 == Resolved
             else MayFollow(events[|events| - 1].1, e.1) && events[|events| - 1].0 < e.0
    ensures Grammatical(events + [e])
  {
    var after := events + [e];
    forall i | 0 < i < |after|
      ensures MayFollow(after[i - 1].1, after[i].1) && after[i - 1].0 < after[i].0
    {
      assert after[i - 1] == events[i - 1];
      if i < |events| { assert after[i] == events[i]; }
    }
  }

  /** All events so far happened at runs before the n-th. */
  lemma {:induction false} ReplayBefore(l: Ledger, runs: seq<RunId>, n: nat, finding: FindingId)
    requires finding in l.owner && RunsAscending(l, runs) && n < |runs|
    ensures var events := Replay(l, runs, n, finding);
            events != [] ==> events[|events| - 1].0 < l.started[runs[n]]
  {
    if n > 0 {
      ReplayBefore(l, runs, n - 1, finding);
    }
  }

  ghost predicate WellReplayed(l: Ledger, runs: seq<RunId>, n: nat, finding: FindingId)
    requires finding in l.owner && n <= |runs|
  {
    Grammatical(Replay(l, runs, n, finding))
        && PhaseMatchesEnd(PhaseAfter(l, runs, n, finding), Replay(l, runs, n, finding))
  }

  /** One analysed run keeps the grammar and the phase's memory of the end. */
  lemma PhaseStep(phase: Phase, now: Sighting, events: seq<Event>, startMs: int)
    requires Grammatical(events) && PhaseMatchesEnd(phase, events)
    requires events != [] ==> events[|events| - 1].0 < startMs
    ensures var after :=
              if Classify(phase, now).Some? then events + [(startMs, Classify(phase, now).value)] else events;
            Grammatical(after) && PhaseMatchesEnd(NextPhase(phase, now), after)
  {
    if Classify(phase, now).Some? { GrammaticalAppend(events, (startMs, Classify(phase, now).value)); }
  }

  lemma PhaseNext(l: Ledger, runs: seq<RunId>, n: nat, finding: FindingId, phase: Phase, now: Sighting)
    requires finding in l.owner && n < |runs| && Analyses(l, runs[n], l.owner[finding])
    requires phase == PhaseAfter(l, runs, n, finding) && now == SightingIn(l, finding, runs[n])
    ensures PhaseAfter(l, runs, n + 1, finding) == NextPhase(phase, now)
    ensures Replay(l, runs, n + 1, finding) ==
            if Classify(phase, now).Some? then
              Replay(l, runs, n, finding) + [(l.started[runs[n]], Classify(phase, now).value)]
            else Replay(l, runs, n, finding)
  {}

  lemma GrammarStep(l: Ledger, runs: seq<RunId>, n: nat, finding: FindingId)
    requires finding in l.owner && RunsAscending(l, runs) && n < |runs| && WellReplayed(l, runs, n, finding)
    ensures WellReplayed(l, runs, n + 1, finding)
  {
    if Analyses(l, runs[n], l.owner[finding]) {
      var phase, now := PhaseAfter(l, runs, n, finding), SightingIn(l, finding, runs[n]);
      ReplayBefore(l, runs, n, finding);
      PhaseStep(phase, now, Replay(l, runs, n, finding), l.started[runs[n]]);
      PhaseNext(l, runs, n, finding, phase, now);
    }
  }

  lemma {:induction false} ReplayGrammar(l: Ledger, runs: seq<RunId>, n: nat, finding: FindingId)
    requires finding in l.owner && RunsAscending(l, runs) && n <= |runs|
    ensures Grammatical(Replay(l, runs, n, finding))
    ensures PhaseMatchesEnd(PhaseAfter(l, runs, n, finding), Replay(l, runs, n, finding))
  {
    if n > 0 {
      ReplayGrammar(l, runs, n - 1, finding);
      GrammarStep(l, runs, n - 1, finding);
    }
  }

  /**
   Timeline grammar: a finding is new only as its first event, a regression
   directly follows a resolution or a dismissal, and events are in run order.
   */
  lemma TimelineGrammar(l: Ledger, runs: seq<RunId>, n: nat, finding: FindingId)
    requires DistinctStarts(l) && RunsAscending(l, runs)
    requires finding in l.owner && n <= |runs|
    ensures Grammatical(Timeline(l, runs, n, finding))
    ensures PhaseMatchesEnd(PhaseAfter(l, runs, n, finding), Timeline(l, runs, n, finding))
  {
    TimelineIsReplay(l, runs, n, finding);
    ReplayGrammar(l, runs, n, finding);
  }

  /** In a grammatical timeline `new` can only be the first event. */
  lemma NewAtMostOnce(events: seq<Event>, i: nat)
    requires Grammatical(events)
    requires i < |events| && events[i].1 == New
    ensures i == 0
  {
    assert i > 0 ==> MayFollow(events[i - 1].1, events[i].1);
  }

  /** No verdict is ever given for a project the run did not analyse. */
  lemma NoVerdictUnlessAnalysed(l: Ledger, run: RunId, finding: FindingId)
    requires Verdict(l, run, finding).Some?
    ensures finding in l.owner && Analyses(l, run, l.owner[finding])
    ensures SightingIn(l, finding, run) == Unreported ==> Verdict(l, run, finding) == Some(Resolved)
  {}

  // ----- exact backlog accounting -----

  function CountOf(events: seq<Event>, s: DeltaState): nat {
    if events == [] then 0
    else CountOf(events[..|events| - 1], s) + if events[|events| - 1].1 == s then 1 else 0
  }

  lemma CountOfAppend(events: seq<Event>, e: Event, s: DeltaState)
    ensures CountOf(events + [e], s) == CountOf(events, s) + if e.1 == s then 1 else 0
  {
    assert (events + [e])[..|events|] == events;
  }

  /** Runs in which a finding recorded as dismissed the last time was not reported at all. */
  ghost function SettledThenAbsent(l: Ledger, runs: seq<RunId>, n: nat, finding: FindingId): nat
    requires finding in l.owner && n <= |runs|
  {
    if n == 0 then 0
    else
      SettledThenAbsent(l, runs, n - 1, finding) +
      if Analyses(l, runs[n - 1], l.owner[finding]) && PhaseAfter(l, runs, n - 1, finding) == LastSettled
        && SightingIn(l, finding, runs[n - 1]) == Unreported then 1 else 0
  }

  /** Counts the first sighting of the finding when it was already a dismissed one. */
  ghost function FirstSightedSettled(l: Ledger, runs: seq<RunId>, n: nat, finding: FindingId): nat
    requires finding in l.owner && n <= |runs|
  {
    if n == 0 then 0
    else
      FirstSightedSettled(l, runs, n - 1, finding) +
      if Analyses(l, runs[n - 1], l.owner[finding]) && PhaseAfter(l, runs, n - 1, finding) == NeverSeen
        && SightingIn(l, finding, runs[n - 1]) == Settled then 1 else 0
  }

  /** new + regressed - resolved, over one finding's timeline. */
  function Backlog(events: seq<Event>): int {
    CountOf(events, New) + CountOf(events, Regressed) - CountOf(events, Resolved)
  }

  function OpenAtEnd(events: seq<Event>): nat {
    if events != [] && IsOpen(events[|events| - 1].1) then 1 else 0
  }

  lemma BacklogAppend(events: seq<Event>, e: Event)
    ensures Backlog(events + [e]) == Backlog(events) +
            if e.1 == New || e.1 == Regressed then 1 else if e.1 == Resolved then -1 else 0
    ensures OpenAtEnd(events + [e]) == if IsOpen(e.1) then 1 else 0
  {
    CountOfAppend(events, e, New);
    CountOfAppend(events, e, Regressed);
    CountOfAppend(events, e, Resolved);
  }

  /** What one analysed run does to the backlog, phase by phase. */
  lemma BacklogStep(phase: Phase, now: Sighting, events: seq<Event>, startMs: int)
    requires PhaseMatchesEnd(phase, events)
    ensures var after :=
              if Classify(phase, now).Some? then events + [(startMs, Classify(phase, now).value)] else events;
            Backlog(after) - Backlog(events)
            + (if phase == LastSettled && now == Unreported then 1 else 0)
            + (if phase == NeverSeen && now == Settled then 1 else 0)
            == OpenAtEnd(after) - OpenAtEnd(events)
  {
    if Classify(phase, now).Some? { BacklogAppend(events, (startMs, Classify(phase, now).value)); }
  }

  /** One more run: what it adds to the replay and to the two artefact counts. */
  lemma ReplayNext(l: Ledger, runs: seq<RunId>, n: nat, finding: FindingId, phase: Phase, now: Sighting)
    requires finding in l.owner && n < |runs| && Analyses(l, runs[n], l.owner[finding])
    requires phase == PhaseAfter(l, runs, n, finding) && now == SightingIn(l, finding, runs[n])
    ensures Replay(l, runs, n + 1, finding) ==
            if Classify(phase, now).Some? then
              Replay(l, runs, n, finding) + [(l.started[runs[n]], Classify(phase, now).value)]
            else Replay(l, runs, n, finding)
    ensures SettledThenAbsent(l, runs, n + 1, finding)
            == SettledThenAbsent(l, runs, n, finding) + if phase == LastSettled && now == Unreported then 1 else 0
    ensures FirstSightedSettled(l, runs, n + 1, finding)
            == FirstSightedSettled(l, runs, n, finding) + if phase == NeverSeen && now == Settled then 1 else 0
  {}

  lemma ReplaySkips(l: Ledger, runs: seq<RunId>, n: nat, finding: FindingId)
    requires finding in l.owner && n < |runs| && !Analyses(l, runs[n], l.owner[finding])
    ensures Replay(l, runs, n + 1, finding) == Replay(l, runs, n, finding)
    ensures SettledThenAbsent(l, runs, n + 1, finding) == SettledThenAbsent(l, runs, n, finding)
    ensures FirstSightedSettled(l, runs, n + 1, finding) == FirstSightedSettled(l, runs, n, finding)
  {}

  ghost predicate Balanced(l: Ledger, runs: seq<RunId>, n: nat, finding: FindingId)
    requires finding in l.owner && n <= |runs|
  {
    Backlog(Replay(l, runs, n, finding)) + SettledThenAbsent(l, runs, n, finding)
        + FirstSightedSettled(l, runs, n, finding)
    == OpenAtEnd(Replay(l, runs, n, finding))
  }

  lemma BalancedStep(l: Ledger, runs: seq<RunId>, m: nat, n: nat, finding: FindingId)
    requires finding in l.owner && RunsAscending(l, runs) && n == m + 1 && n <= |runs| && Balanced(l, runs, m, finding)
    requires PhaseMatchesEnd(PhaseAfter(l, runs, m, finding), Replay(l, runs, m, finding))
    ensures Balanced(l, runs, n, finding)
  {
    if Analyses(l, runs[m], l.owner[finding]) {
      var phase, now := PhaseAfter(l, runs, m, finding), SightingIn(l, finding, runs[m]);
      BacklogStep(phase, now, Replay(l, runs, m, finding), l.started[runs[m]]);
      ReplayNext(l, runs, m, finding, phase, now);
    } else {
      ReplaySkips(l, runs, m, finding);
    }
  }

  lemma NothingBalanced(l: Ledger, runs: seq<RunId>, finding: FindingId)
    requires finding in l.owner
    ensures Balanced(l, runs, 0, finding)
  {}

  lemma {:induction false} BacklogOfReplay(l: Ledger, runs: seq<RunId>, n: nat, finding: FindingId)
    requires finding in l.owner && RunsAscending(l, runs) && n <= |runs|
    ensures Balanced(l, runs, n, finding)
  {
    if n == 0 {
      NothingBalanced(l, runs, finding);
    } else {
      var m: nat := n - 1;
      BacklogOfReplay(l, runs, m, finding);
      ReplayGrammar(l, runs, m, finding);
      BalancedStep(l, runs, m, n, finding);
    }
  }

  /** The backlog of one finding is off by exactly the two dismissal artefacts. */
  lemma BacklogOfFinding(l: Ledger, runs: seq<RunId>, n: nat, finding: FindingId)
    requires DistinctStarts(l) && RunsAscending(l, runs)
    requires finding in l.owner && n <= |runs|
    ensures var events := Timeline(l, runs, n, finding);
            Backlog(events) + SettledThenAbsent(l, runs, n, finding) + FirstSightedSettled(l, runs, n, finding)
            == OpenAtEnd(events)
  {
    TimelineIsReplay(l, runs, n, finding);
    BacklogOfReplay(l, runs, n, finding);
  }

  /** Each of the two artefacts needs a dismissed sighting, and the second happens at most once. */
  lemma {:induction false} ArtefactsNeedDismissals(l: Ledger, runs: seq<RunId>, n: nat, finding: FindingId)
    requires finding in l.owner && n <= |runs|
    ensures FirstSightedSettled(l, runs, n, finding) <= if PhaseAfter(l, runs, n, finding) == NeverSeen then 0 else 1
    ensures (forall i :: 0 <= i < n ==> SightingIn(l, finding, runs[i]) != Settled) ==>
              && SettledThenAbsent(l, runs, n, finding) == 0
              && FirstSightedSettled(l, runs, n, finding) == 0
              && PhaseAfter(l, runs, n, finding) != LastSettled
  {
    if n > 0 {
      ArtefactsNeedDismissals(l, runs, n - 1, finding);
    }
  }

  // ----- history stability -----

  /** `later` only adds runs that start after `horizonMs`, with their rows, and findings. */
  ghost predicate ExtendsAfter(l: Ledger, later: Ledger, horizonMs: int) {
    && (forall r :: r in l.started ==> r in later.started && later.started[r] == l.started[r])
    && (forall r :: r in later.started && r !in l.started ==> later.started[r] > horizonMs)
    && (forall r, p :: r in l.started ==> ((r, p) in l.analyzed <==> (r, p) in later.analyzed))
    && (forall f, r :: r in l.started ==> SightingIn(l, f, r) == SightingIn(later, f, r))
    && (forall f :: f in l.owner ==> f in later.owner && later.owner[f] == l.owner[f])
  }

  lemma EarlierRowsAgree(l: Ledger, later: Ledger, horizonMs: int, finding: FindingId, p: ProjectId, r: RunId)
    requires ExtendsAfter(l, later, horizonMs)
    requires r in l.started || (r in later.started && later.started[r] <= horizonMs)
    ensures Analyses(l, r, p) <==> Analyses(later, r, p)
    ensures r in l.started && r in later.started && l.started[r] == later.started[r]
    ensures (finding, r) in l.observed <==> (finding, r) in later.observed
    ensures SightingIn(l, finding, r) == SightingIn(later, finding, r)
  {
    assert (r, p) in l.analyzed <==> (r, p) in later.analyzed;
    assert SightingIn(l, finding, r) == SightingIn(later, finding, r);
  }

  lemma PredecessorsAgree(l: Ledger, later: Ledger, horizonMs: int, p: ProjectId, q: RunId)
    requires ExtendsAfter(l, later, horizonMs)
    ensures IsPredecessor(l, p, horizonMs, q) <==> IsPredecessor(later, p, horizonMs, q)
  {
    forall r | r in l.started || (r in later.started && later.started[r] <= horizonMs)
      ensures Analyses(l, r, p) <==> Analyses(later, r, p)
      ensures r in l.started && r in later.started && l.started[r] == later.started[r]
    {
      EarlierRowsAgree(l, later, horizonMs, "", p, r);
    }
  }

  lemma SeenBeforeAgrees(l: Ledger, later: Ledger, horizonMs: int, finding: FindingId, p: ProjectId)
    requires ExtendsAfter(l, later, horizonMs)
    ensures SeenBefore(l, finding, p, horizonMs) <==> SeenBefore(later, finding, p, horizonMs)
  {
    if SeenBefore(l, finding, p, horizonMs) {
      var r :| Analyses(l, r, p) && l.started[r] < horizonMs && (finding, r) in l.observed;
      EarlierRowsAgree(l, later, horizonMs, finding, p, r);
    }
    if SeenBefore(later, finding, p, horizonMs) {
      var r :| Analyses(later, r, p) && later.started[r] < horizonMs && (finding, r) in later.observed;
      EarlierRowsAgree(l, later, horizonMs, finding, p, r);
    }
  }

  /** Appending later runs never changes the verdict an earlier run gave. */
  lemma HistoryStable(l: Ledger, later: Ledger, run: RunId, finding: FindingId)
    requires DistinctStarts(l) && DistinctStarts(later)
    requires run in l.started && ExtendsAfter(l, later, l.started[run])
    requires finding in l.owner
    ensures Verdict(later, run, finding) == Verdict(l, run, finding)
  {
    var p, ms := l.owner[finding], l.started[run];
    EarlierRowsAgree(l, later, ms, finding, p, run);
    SeenBeforeAgrees(l, later, ms, finding, p);
    if q :| IsPredecessor(l, p, ms, q) {
      PredecessorsAgree(l, later, ms, p, q);
      EarlierRowsAgree(l, later, ms, finding, p, q);
      PhaseOfPredecessor(l, finding, p, ms, q);
      PhaseOfPredecessor(later, finding, p, ms, q);
    } else if q :| IsPredecessor(later, p, ms, q) {
      PredecessorsAgree(l, later, ms, p, q);
    }
  }

  /** Replaying a longer ledger reproduces the shorter ledger's timeline as a prefix. */
  lemma {:induction false} TimelineStable(l: Ledger, later: Ledger, runs: seq<RunId>, laterRuns: seq<RunId>, n: nat,
                                          finding: FindingId)
    requires DistinctStarts(l) && DistinctStarts(later)
    requires RunsAscending(l, runs) && runs <= laterRuns
    requires n <= |runs| && finding in l.owner
    requires runs != [] ==> ExtendsAfter(l, later, l.started[runs[|runs| - 1]])
    ensures Timeline(later, laterRuns, n, finding) == Timeline(l, runs, n, finding)
  {
    if n > 0 {
      var m: nat := n - 1;
      TimelineStable(l, later, runs, laterRuns, m, finding);
      LastRunStable(l, later, runs, m, finding);
      NextEventStable(l, later, runs, laterRuns, m, n, finding);
    }
  }

  lemma NextEventStable(l: Ledger, later: Ledger, runs: seq<RunId>, laterRuns: seq<RunId>, n: nat, next: nat,
                        finding: FindingId)
    requires next == n + 1 && n < |runs| && runs <= laterRuns
    requires Timeline(later, laterRuns, n, finding) == Timeline(l, runs, n, finding)
    requires Verdict(later, runs[n], finding) == Verdict(l, runs[n], finding)
    requires runs[n] in l.started && runs[n] in later.started && later.started[runs[n]] == l.started[runs[n]]
    ensures Timeline(later, laterRuns, next, finding) == Timeline(l, runs, next, finding)
  {
    assert laterRuns[n] == runs[n];
  }

  lemma LastRunStable(l: Ledger, later: Ledger, runs: seq<RunId>, i: nat, finding: FindingId)
    requires DistinctStarts(l) && DistinctStarts(later)
    requires RunsAscending(l, runs) && i < |runs| && finding in l.owner
    requires ExtendsAfter(l, later, l.started[runs[|runs| - 1]])
    ensures Verdict(later, runs[i], finding) == Verdict(l, runs[i], finding)
    ensures runs[i] in l.started && runs[i] in later.started && later.started[runs[i]] == l.started[runs[i]]
  {
    var run := runs[i];
    assert AnalysesAny(l, run);
    assert l.started[run] <= l.started[runs[|runs| - 1]];
    assert ExtendsAfter(l, later, l.started[run]);
    HistoryStable(l, later, run, finding);
  }
}
