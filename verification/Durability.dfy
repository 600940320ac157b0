/**
 Watermarks, lookback windows, the two commits of a run, and crashes between
 them, over one transcript file or database table that only grows.  Each run
 scans from a floor derived from the watermark, commits the watermark and the
 router rows first, and afterwards the turns: only of groups whose batch names a
 project.  Other files of the same source share the watermark.
 */
module Durability {
  import opened Wrappers
  import opened Records
  import opened SessionGroups
  import opened Persist
  import opened ConnectorScan
  import opened TwoRuns
  import Sequences

  /** Router rows are written during ingest, message turns by the later persist step. */
  datatype Kind = Requests | Turns

  /** The scheduled run names no window; an operator may name one that reaches further back. */
  datatype Lookback = Scheduled(cutoff: int) | Explicit(cutoff: int)

  /**
   Where a run stops.  A crash loses what is not committed; after an error the run
   still commits what it has written, among it the rows of the first `n` lines.
   */
  datatype Fate =
    | CrashBeforeIngestCommit
    | ErrorInIngest(n: nat)
    | CrashBetweenCommits
    | ErrorInPersist(n: nat)
    | Complete

  /** The run commits its watermark. */
  predicate Advances(fate: Fate) { fate.CrashBetweenCommits? || fate.ErrorInPersist? || fate.Complete? }

  /** `stored` holds the places of the lines whose writes are committed. */
  datatype State = State(lines: seq<Line>, watermark: nat, stored: set<nat>)

  /** `others` is the newest time the run reads in other files of the source. */
  datatype Event = Arrive(l: Line) | Run(look: Lookback, others: nat, fate: Fate)

  const EMPTY := State([], 0, {})

  /** Naming a window that starts before the watermark drops the floor. */
  function Floor(watermark: nat, look: Lookback): nat {
    if look.Explicit? && look.cutoff < watermark then 0 else watermark
  }

  function WindowOf(s: State, look: Lookback): Window { Window(Floor(s.watermark, look), look.cutoff) }

  /** The newest time among `m` and the first `n` lines read. */
  function Mark(f: File, lines: seq<Line>, n: nat, w: Window, m: nat): (r: nat)
    requires n <= |lines|
    ensures r >= m && forall i :: 0 <= i < n && Reads(f, lines, i, w) ==> TimeOf(lines[i]) <= r
    ensures r == m || exists i :: 0 <= i < n && Reads(f, lines, i, w) && TimeOf(lines[i]) == r
  {
    if n == 0 then m
    else
      var before := Mark(f, lines, n - 1, w, m);
      if Reads(f, lines, n - 1, w) && TimeOf(lines[n - 1]) > before then TimeOf(lines[n - 1]) else before
  }

  function Max(a: nat, b: nat): nat { if a > b then a else b }

  function Min(a: nat, b: nat): nat { if a < b then a else b }

  function TypeOf(f: File, l: Line): RecordType
    requires Yielding(f, l)
  {
    if l.Row? then l.record.rtype else if IsHeader(l) then SessionStart else l.kind.rtype
  }

  predicate IsKind(f: File, l: Line, kind: Kind) {
    Yielding(f, l) && if kind.Requests? then TypeOf(f, l).RouterRequest? else TypeOf(f, l).Message?
  }

  /** The run's batch stores the message of line `i`: its group names a project. */
  predicate Kept(f: File, lines: seq<Line>, i: nat, w: Window)
    requires i < |lines|
  {
    && Reads(f, lines, i, w) && IsKind(f, lines[i], Turns)
    && StoredAs(Scan(f, lines, w), RecordAt(f, lines, i, w)).Some?
  }

  /** The router rows among the first `n` lines. */
  function RoutersTo(f: File, lines: seq<Line>, n: nat, w: Window): set<nat>
    requires n <= |lines|
  {
    set i: nat | i < n && Reads(f, lines, i, w) && IsKind(f, lines[i], Requests)
  }

  function KeptTo(f: File, lines: seq<Line>, n: nat, w: Window): set<nat>
    requires n <= |lines|
  {
    set i: nat | i < n && Kept(f, lines, i, w)
  }

  function ApplyRun(f: File, s: State, look: Lookback, others: nat, fate: Fate): State {
    var w, n := WindowOf(s, look), |s.lines|;
    var ingested := s.(watermark := Mark(f, s.lines, n, w, Max(s.watermark, others)),
                       stored := s.stored + RoutersTo(f, s.lines, n, w));
    match fate
    case CrashBeforeIngestCommit => s
    case ErrorInIngest(m) => s.(stored := s.stored + RoutersTo(f, s.lines, Min(m, n), w))
    case CrashBetweenCommits => ingested
    case ErrorInPersist(m) => ingested.(stored := ingested.stored + KeptTo(f, s.lines, Min(m, n), w))
    case Complete => ingested.(stored := ingested.stored + KeptTo(f, s.lines, n, w))
  }

  function Apply(f: File, s: State, e: Event): State {
    match e
    case Arrive(l) => s.(lines := s.lines + [l])
    case Run(look, others, fate) => ApplyRun(f, s, look, others, fate)
  }

  function ApplyAll(f: File, s: State, events: seq<Event>): State
    decreases |events|
  {
    if events == [] then s else ApplyAll(f, Apply(f, s, events[0]), events[1..])
  }

  function Arrivals(events: seq<Event>): seq<Line>
    decreases |events|
  {
    if events == [] then [] else (if events[0].Arrive? then [events[0].l] else []) + Arrivals(events[1..])
  }

  // ----- the conditions -----

  /** A line never arrives at or below the watermark. */
  predicate Punctual(s: State, e: Event) { e.Arrive? && !e.l.Malformed? ==> TimeOf(e.l) > s.watermark }

  /** A run that commits does not start with a window that skips a line it has not seen. */
  predicate Timely(f: File, s: State, e: Event) {
    e.Run? && Advances(e.fate) ==>
      forall i :: 0 <= i < |s.lines| && Yielding(f, s.lines[i]) && TimeOf(s.lines[i]) > s.watermark ==>
        TimeOf(s.lines[i]) >= e.look.cutoff
  }

  /** For messages: no run that commits its watermark stops short of its last turn. */
  predicate CrashSafe(kind: Kind, e: Event) { kind.Turns? && e.Run? && Advances(e.fate) ==> e.fate.Complete? }

  predicate WellRun(kind: Kind, f: File, s: State, events: seq<Event>)
    decreases |events|
  {
    events != [] ==>
      && Punctual(s, events[0]) && Timely(f, s, events[0]) && CrashSafe(kind, events[0])
      && WellRun(kind, f, Apply(f, s, events[0]), events[1..])
  }

  // ----- nothing is lost -----

  lemma StepNeverLowers(f: File, s: State, e: Event)
    ensures Apply(f, s, e).watermark >= s.watermark && s.stored <= Apply(f, s, e).stored
    ensures s.lines <= Apply(f, s, e).lines
  {}

  /** Over every sequence of arrivals, runs and crashes the watermark never decreases and nothing stored leaves. */
  lemma {:induction false} NeverLowers(f: File, s: State, events: seq<Event>)
    ensures ApplyAll(f, s, events).watermark >= s.watermark && s.stored <= ApplyAll(f, s, events).stored
    decreases |events|
  {
    if events != [] {
      StepNeverLowers(f, s, events[0]);
      NeverLowers(f, Apply(f, s, events[0]), events[1..]);
    }
  }

  lemma StepLines(f: File, s: State, events: seq<Event>)
    requires events != []
    ensures Apply(f, s, events[0]).lines + Arrivals(events[1..]) == s.lines + Arrivals(events)
  {
    var e := events[0];
    assert Arrivals(events) == (if e.Arrive? then [e.l] else []) + Arrivals(events[1..]);
    if e.Run? {
      assert Apply(f, s, e).lines == s.lines;
      assert [] + Arrivals(events[1..]) == Arrivals(events[1..]);
    } else {
      assert s.lines + ([e.l] + Arrivals(events[1..])) == s.lines + [e.l] + Arrivals(events[1..]);
    }
  }

  /** The file ends with what arrived. */
  lemma {:induction false} LinesArrive(f: File, s: State, events: seq<Event>)
    ensures ApplyAll(f, s, events).lines == s.lines + Arrivals(events)
    decreases |events|
  {
    if events == [] {
      assert s.lines + [] == s.lines;
    } else {
      StepLines(f, s, events);
      LinesArrive(f, Apply(f, s, events[0]), events[1..]);
    }
  }

  /** Whatever batch first reads the message, that batch names a project for it. */
  ghost predicate Safe(f: File, all: seq<Line>, i: nat)
    requires i < |all|
  {
    IsKind(f, all[i], Turns) && forall m: nat, w :: i < m <= |all| && InWindow(w, all[i]) ==> Kept(f, all[..m], i, w)
  }

  /** Router requests are always written; messages when no batch can strand them. */
  ghost predicate Sure(kind: Kind, f: File, all: seq<Line>, i: nat)
    requires i < |all|
  {
    if kind.Requests? then IsKind(f, all[i], Requests) else Safe(f, all, i)
  }

  predicate Passed(f: File, s: State, i: nat)
    requires i < |s.lines|
  {
    Yielding(f, s.lines[i]) && TimeOf(s.lines[i]) <= s.watermark
  }

  /** Every sure line at or below the watermark is stored. */
  ghost predicate NothingLost(kind: Kind, f: File, all: seq<Line>, s: State) {
    && s.lines <= all
    && forall i: nat :: i < |s.lines| && Passed(f, s, i) && Sure(kind, f, all, i) ==> i in s.stored
  }

  lemma RunReads(f: File, s: State, e: Event, i: nat)
    requires e.Run? && Advances(e.fate) && Timely(f, s, e)
    requires i < |s.lines| && Yielding(f, s.lines[i]) && TimeOf(s.lines[i]) > s.watermark
    ensures Reads(f, s.lines, i, WindowOf(s, e.look))
  {}

  lemma StepLosesNothing(kind: Kind, f: File, all: seq<Line>, s: State, e: Event)
    requires NothingLost(kind, f, all, s) && Punctual(s, e) && Timely(f, s, e) && CrashSafe(kind, e)
    requires Apply(f, s, e).lines <= all
    ensures NothingLost(kind, f, all, Apply(f, s, e))
  {
    var after := Apply(f, s, e);
    forall i: nat | i < |after.lines| && Passed(f, after, i) && Sure(kind, f, all, i) ensures i in after.stored {
      if e.Arrive? {
        if i < |s.lines| { assert Passed(f, s, i); }
      } else if TimeOf(s.lines[i]) <= s.watermark {
        assert Passed(f, s, i);
      } else {
        RunReads(f, s, e, i);
        assert all[..|s.lines|] == s.lines;
      }
    }
  }

  /**
   Router requests survive crashes anywhere; messages survive when no crash falls
   between the two commits and every batch that may read them names a project.
   */
  lemma {:induction false} NoRecordLost(kind: Kind, f: File, s: State, events: seq<Event>)
    requires NothingLost(kind, f, s.lines + Arrivals(events), s) && WellRun(kind, f, s, events)
    ensures NothingLost(kind, f, s.lines + Arrivals(events), ApplyAll(f, s, events))
    decreases |events|
  {
    if events != [] {
      var next, all := Apply(f, s, events[0]), s.lines + Arrivals(events);
      StepLines(f, s, events);
      StepLosesNothing(kind, f, all, s, events[0]);
      NoRecordLost(kind, f, next, events[1..]);
    } else {
      assert s.lines + [] == s.lines;
    }
  }

  // ----- arrivals in time order -----

  /** Times rise strictly from line to line. */
  ghost predicate Rising(lines: seq<Line>) {
    && (forall i :: 0 <= i < |lines| && !lines[i].Malformed? ==> TimeOf(lines[i]) > 0)
    && forall i, j :: 0 <= i < j < |lines| && !lines[i].Malformed? && !lines[j].Malformed? ==>
        TimeOf(lines[i]) < TimeOf(lines[j])
  }

  /** The watermark is the time of some line, or what other files left. */
  ghost predicate BehindArrivals(s: State, all: seq<Line>) {
    s.lines <= all && forall j :: |s.lines| <= j < |all| && !all[j].Malformed? ==> TimeOf(all[j]) > s.watermark
  }

  /** Other files are read no further than the lines still to come. */
  predicate InStep(s: State, e: Event, all: seq<Line>) {
    e.Run? ==> forall j :: |s.lines| <= j < |all| && !all[j].Malformed? ==> TimeOf(all[j]) > e.others
  }

  /** Strictly rising arrival times make every arrival punctual, as long as other files do not run ahead. */
  lemma RisingIsPunctual(f: File, s: State, e: Event, all: seq<Line>)
    requires Rising(all) && BehindArrivals(s, all) && Apply(f, s, e).lines <= all && InStep(s, e, all)
    ensures Punctual(s, e) && BehindArrivals(Apply(f, s, e), all)
  {
    var after := Apply(f, s, e);
    if e.Arrive? {
      assert all[|s.lines|] == after.lines[|s.lines|] == e.l;
    } else {
      forall j | |after.lines| <= j < |all| && !all[j].Malformed? ensures TimeOf(all[j]) > after.watermark {
        forall i: nat | i < |s.lines| && Reads(f, s.lines, i, WindowOf(s, e.look))
          ensures TimeOf(s.lines[i]) < TimeOf(all[j])
        {
          assert s.lines[i] == all[i];
        }
      }
    }
  }

  ghost predicate AllInStep(f: File, s: State, events: seq<Event>, all: seq<Line>)
    decreases |events|
  {
    events != [] ==> InStep(s, events[0], all) && AllInStep(f, Apply(f, s, events[0]), events[1..], all)
  }

  lemma {:induction false} RisingRunsArePunctual(f: File, s: State, events: seq<Event>, all: seq<Line>, i: nat)
    requires Rising(all) && BehindArrivals(s, all) && s.lines + Arrivals(events) == all && AllInStep(f, s, events, all)
    requires i < |events|
    ensures Punctual(ApplyAll(f, s, events[..i]), events[i])
    decreases |events|
  {
    StepLines(f, s, events);
    RisingIsPunctual(f, s, events[0], all);
    if i > 0 {
      RisingRunsArePunctual(f, Apply(f, s, events[0]), events[1..], all, i - 1);
      assert events[..i][1..] == events[1..][..i - 1] && events[..i][0] == events[0];
    } else {
      assert events[..0] == [];
    }
  }

  // ----- which messages a batch stores -----

  lemma StoredIff(records: seq<Record>, r: Record)
    requires r in records
    ensures StoredAs(records, r).Some?
            <==> KeyOf(r).Some? && exists x :: x in records && KeyOf(x) == KeyOf(r) && x.projectPath != ""
  {
    if KeyOf(r).Some? {
      var k := KeyOf(r).value;
      GroupSummarises(k, Members(records, k));
      forall x
        ensures x in Members(records, k) <==> x in records && KeyOf(x) == Some(k)
      {
        MembersExactly(records, k, x);
      }
    }
  }

  /** Line `j` puts the group of line `i` into a project. */
  ghost predicate Places(f: File, lines: seq<Line>, i: nat, j: nat, w: Window)
    requires i < |lines| && j < |lines| && Reads(f, lines, i, w)
  {
    && Reads(f, lines, j, w) && RecordAt(f, lines, j, w).projectPath != ""
    && KeyOf(RecordAt(f, lines, j, w)) == KeyOf(RecordAt(f, lines, i, w))
  }

  /** Some line of its group, read in the same run, names a project. */
  ghost predicate Placed(f: File, lines: seq<Line>, i: nat, w: Window)
    requires i < |lines| && Reads(f, lines, i, w)
  {
    KeyOf(RecordAt(f, lines, i, w)).Some? && exists j: nat :: j < |lines| && Places(f, lines, i, j, w)
  }

  /** A message is stored exactly when its group is placed by the batch. */
  lemma KeptIff(f: File, lines: seq<Line>, i: nat, w: Window)
    requires i < |lines| && Reads(f, lines, i, w) && IsKind(f, lines[i], Turns)
    ensures Kept(f, lines, i, w) <==> Placed(f, lines, i, w)
  {
    var records, r := Scan(f, lines, w), RecordAt(f, lines, i, w);
    LineIsYielded(f, lines, |lines|, w, i);
    StoredIff(records, r);
    if Kept(f, lines, i, w) {
      var x :| x in records && KeyOf(x) == KeyOf(r) && x.projectPath != "";
      var j := YieldsFromLine(f, lines, |lines|, w, x);
      assert Places(f, lines, i, j, w);
    }
    forall j: nat | j < |lines| && Places(f, lines, i, j, w)
      ensures RecordAt(f, lines, j, w) in records
    {
      LineIsYielded(f, lines, |lines|, w, j);
    }
  }

  ghost predicate SameWindow(lines: seq<Line>, w: Window, v: Window) {
    forall i :: 0 <= i < |lines| ==> (InWindow(w, lines[i]) <==> InWindow(v, lines[i]))
  }

  lemma {:induction false} SameWindowSameScan(f: File, lines: seq<Line>, n: nat, w: Window, v: Window)
    requires n <= |lines| && SameWindow(lines, w, v)
    ensures CarryAt(f, lines, n, w) == CarryAt(f, lines, n, v) && Yields(f, lines, n, w) == Yields(f, lines, n, v)
    decreases n
  {
    if n > 0 { SameWindowSameScan(f, lines, n - 1, w, v); }
  }

  lemma SameWindowKeeps(f: File, lines: seq<Line>, i: nat, w: Window, v: Window)
    requires i < |lines| && SameWindow(lines, w, v)
    ensures Kept(f, lines, i, w) <==> Kept(f, lines, i, v)
  {
    SameWindowSameScan(f, lines, i, w, v);
    SameWindowSameScan(f, lines, |lines|, w, v);
  }

  // ----- every schedule -----

  function Arrives(ls: seq<Line>): (events: seq<Event>)
    ensures |events| == |ls| && forall i :: 0 <= i < |ls| ==> events[i] == Arrive(ls[i])
  {
    seq(|ls|, i requires 0 <= i < |ls| => Arrive(ls[i]))
  }

  lemma HeadOfConcat(a: seq<Event>, b: seq<Event>)
    requires a != []
    ensures a + b != [] && (a + b)[0] == a[0] && (a + b)[1..] == a[1..] + b
  {}

  lemma {:induction false} ApplyConcat(f: File, s: State, a: seq<Event>, b: seq<Event>)
    ensures ApplyAll(f, s, a + b) == ApplyAll(f, ApplyAll(f, s, a), b)
    decreases |a|
  {
    if a == [] {
      assert a + b == b;
    } else {
      HeadOfConcat(a, b);
      ApplyConcat(f, Apply(f, s, a[0]), a[1..], b);
    }
  }

  lemma {:induction false} WellRunConcat(kind: Kind, f: File, s: State, a: seq<Event>, b: seq<Event>)
    requires WellRun(kind, f, s, a) && WellRun(kind, f, ApplyAll(f, s, a), b)
    ensures WellRun(kind, f, s, a + b)
    decreases |a|
  {
    if a == [] {
      assert a + b == b;
    } else {
      HeadOfConcat(a, b);
      WellRunConcat(kind, f, Apply(f, s, a[0]), a[1..], b);
    }
  }

  lemma {:induction false} ArrivalsConcat(a: seq<Event>, b: seq<Event>)
    ensures Arrivals(a + b) == Arrivals(a) + Arrivals(b)
    decreases |a|
  {
    if a == [] {
      assert a + b == b;
    } else {
      HeadOfConcat(a, b);
      ArrivalsConcat(a[1..], b);
    }
  }

  /** One history after another. */
  lemma Concat(f: File, s: State, a: seq<Event>, b: seq<Event>)
    requires WellRun(Turns, f, s, a) && WellRun(Turns, f, ApplyAll(f, s, a), b)
    ensures WellRun(Turns, f, s, a + b) && Arrivals(a + b) == Arrivals(a) + Arrivals(b)
    ensures ApplyAll(f, s, a + b) == ApplyAll(f, ApplyAll(f, s, a), b)
  {
    ApplyConcat(f, s, a, b);
    WellRunConcat(Turns, f, s, a, b);
    ArrivalsConcat(a, b);
  }

  lemma ArrivesHead(ls: seq<Line>)
    requires ls != []
    ensures Arrives(ls) != [] && Arrives(ls)[0] == Arrive(ls[0]) && Arrives(ls)[1..] == Arrives(ls[1..])
  {}

  lemma {:induction false} ArrivesAll(f: File, s: State, ls: seq<Line>)
    ensures ApplyAll(f, s, Arrives(ls)) == s.(lines := s.lines + ls)
    decreases |ls|
  {
    if ls == [] {
      assert s.lines + [] == s.lines;
    } else {
      ArrivesHead(ls);
      ArrivesAll(f, s.(lines := s.lines + [ls[0]]), ls[1..]);
      assert s.lines + [ls[0]] + ls[1..] == s.lines + ls;
    }
  }

  lemma {:induction false} ArrivalsOf(ls: seq<Line>)
    ensures Arrivals(Arrives(ls)) == ls
    decreases |ls|
  {
    if ls != [] {
      ArrivesHead(ls);
      ArrivalsOf(ls[1..]);
      assert [ls[0]] + ls[1..] == ls;
    }
  }

  ghost predicate AllAfter(ls: seq<Line>, t: int) {
    forall i :: 0 <= i < |ls| && !ls[i].Malformed? ==> TimeOf(ls[i]) > t
  }

  lemma {:induction false} ArrivesInTime(f: File, s: State, ls: seq<Line>)
    requires AllAfter(ls, s.watermark)
    ensures WellRun(Turns, f, s, Arrives(ls))
    decreases |ls|
  {
    if ls != [] {
      ArrivesHead(ls);
      ArrivesInTime(f, s.(lines := s.lines + [ls[0]]), ls[1..]);
    }
  }

  /** Lines arrive, then a scheduled run that skips nothing; `others` may push the watermark further. */
  lemma ArriveAndRun(f: File, s: State, ls: seq<Line>, others: nat) returns (events: seq<Event>)
    requires AllAfter(ls, s.watermark) && AllAfter(s.lines, 0)
    ensures WellRun(Turns, f, s, events) && Arrivals(events) == ls
    ensures ApplyAll(f, s, events) == ApplyRun(f, s.(lines := s.lines + ls), Scheduled(0), others, Complete)
  {
    var run := Run(Scheduled(0), others, Complete);
    var arrived := s.(lines := s.lines + ls);
    events := Arrives(ls) + [run];
    ArrivesAll(f, s, ls);
    ArrivesInTime(f, s, ls);
    ArrivalsOf(ls);
    OneRun(f, arrived, run);
    Concat(f, s, Arrives(ls), [run]);
    assert ls + [] == ls;
  }

  lemma OneRun(f: File, s: State, run: Event)
    requires run.Run? && Timely(f, s, run) && CrashSafe(Turns, run)
    ensures WellRun(Turns, f, s, [run]) && Arrivals([run]) == []
    ensures ApplyAll(f, s, [run]) == ApplyRun(f, s, run.look, run.others, run.fate)
  {
    assert [run][1..] == [];
  }

  /** The number of leading lines at or below `floor`. */
  lemma {:induction false} LinesUpTo(lines: seq<Line>, floor: nat, n: nat) returns (k: nat)
    requires Rising(lines) && n <= |lines|
    ensures k <= n
    ensures forall i :: 0 <= i < k && !lines[i].Malformed? ==> TimeOf(lines[i]) <= floor
    ensures forall i :: k <= i < n && !lines[i].Malformed? ==> TimeOf(lines[i]) > floor
    decreases n
  {
    if n == 0 || (!lines[n - 1].Malformed? && TimeOf(lines[n - 1]) <= floor) {
      k := n;
    } else {
      k := LinesUpTo(lines, floor, n - 1);
    }
  }

  /** A history in which these lines arrive in time, and runs complete and skip nothing. */
  ghost predicate Schedule(f: File, all: seq<Line>, events: seq<Event>) {
    Arrivals(events) == all && WellRun(Turns, f, EMPTY, events)
  }

  /** Once the history's watermark has passed the line, it is stored. */
  ghost predicate Survives(f: File, all: seq<Line>, i: nat, events: seq<Event>)
    requires i < |all| && !all[i].Malformed?
  {
    var end := ApplyAll(f, EMPTY, events);
    end.watermark >= TimeOf(all[i]) ==> i in end.stored
  }

  /** A first run that leaves the watermark at `floor`. */
  lemma RunUpTo(f: File, ls: seq<Line>, floor: nat) returns (events: seq<Event>, s: State)
    requires forall i :: 0 <= i < |ls| && !ls[i].Malformed? ==> 0 < TimeOf(ls[i]) <= floor
    ensures WellRun(Turns, f, EMPTY, events) && Arrivals(events) == ls && ApplyAll(f, EMPTY, events) == s
    ensures s.lines == ls && s.watermark == floor && forall j :: j in s.stored ==> j < |ls|
  {
    events := ArriveAndRun(f, EMPTY, ls, floor);
    s := ApplyAll(f, EMPTY, events);
    assert EMPTY.lines + ls == ls;
  }

  lemma ThreeParts(f: File, a: seq<Event>, b: seq<Event>, c: seq<Event>) returns (events: seq<Event>)
    requires var s1 := ApplyAll(f, EMPTY, a);
             var s2 := ApplyAll(f, s1, b);
             WellRun(Turns, f, EMPTY, a) && WellRun(Turns, f, s1, b) && WellRun(Turns, f, s2, c)
    ensures WellRun(Turns, f, EMPTY, events) && Arrivals(events) == Arrivals(a) + (Arrivals(b) + Arrivals(c))
    ensures ApplyAll(f, EMPTY, events) == ApplyAll(f, ApplyAll(f, ApplyAll(f, EMPTY, a), b), c)
  {
    Concat(f, ApplyAll(f, EMPTY, a), b, c);
    Concat(f, EMPTY, a, b + c);
    events := a + (b + c);
  }

  lemma TimesWithin(all: seq<Line>, k: nat, m: nat, floor: nat)
    requires Rising(all) && k <= m <= |all| && AllAfter(all[k..], floor)
    ensures AllAfter(all[k..m], floor) && AllAfter(all[..k], 0)
    ensures all[..k] + all[k..m] == all[..m] && all[..k] + (all[k..m] + all[m..]) == all
    ensures all[..m] + all[m..] == all
  {
    forall i | 0 <= i < m - k && !all[k..m][i].Malformed? ensures TimeOf(all[k..m][i]) > floor {
      assert all[k..m][i] == all[k..][i];
    }
  }

  /** Lines up to `k` before a first run, up to `m` before a second, and the rest after it. */
  lemma ScheduleAround(f: File, all: seq<Line>, k: nat, m: nat, floor: nat) returns (events: seq<Event>, s1: State)
    requires Rising(all) && k <= m <= |all| && AllAfter(all[k..], floor)
    requires forall i :: 0 <= i < k && !all[i].Malformed? ==> TimeOf(all[i]) <= floor
    ensures s1.watermark == floor && forall j :: j in s1.stored ==> j < k
    ensures var s2 := ApplyRun(f, s1.(lines := all[..m]), Scheduled(0), 0, Complete);
            AllAfter(all[m..], s2.watermark) ==>
              Schedule(f, all, events) && ApplyAll(f, EMPTY, events) == s2.(lines := all)
  {
    TimesWithin(all, k, m, floor);
    var before, during;
    before, s1 := RunUpTo(f, all[..k], floor);
    during := ArriveAndRun(f, s1, all[k..m], 0);
    var s2, rest := ApplyAll(f, s1, during), all[m..];
    events := [];
    if AllAfter(rest, s2.watermark) {
      ArrivesAll(f, s2, rest);
      ArrivesInTime(f, s2, rest);
      ArrivalsOf(rest);
      events := ThreeParts(f, before, during, Arrives(rest));
    }
  }

  /** Any window over rising lines is one a schedule can produce. */
  lemma ScheduleFor(f: File, all: seq<Line>, i: nat, m: nat, w: Window) returns (events: seq<Event>)
    requires Rising(all) && i < m <= |all| && InWindow(w, all[i]) && IsKind(f, all[i], Turns)
    requires !Kept(f, all[..m], i, w)
    ensures Schedule(f, all, events) && !Survives(f, all, i, events)
  {
    var floor := FloorOf(w);
    var k := LinesUpTo(all, floor, |all|);
    assert TimeOf(all[i]) > floor && k <= i;
    var s1;
    events, s1 := ScheduleAround(f, all, k, m, floor);
    StrandedAt(f, all, s1, i, m, w, floor);
  }

  /** The watermark that acts on lines after time zero as the window does. */
  function FloorOf(w: Window): (floor: nat)
    ensures forall l: Line :: !l.Malformed? && TimeOf(l) > 0 ==> (InWindow(w, l) <==> TimeOf(l) > floor)
  {
    Max(if w.floor > 0 then w.floor else 0, if w.cutoff > 0 then w.cutoff - 1 else 0)
  }

  /** What the second run of the schedule does. */
  lemma StrandedAt(f: File, all: seq<Line>, s: State, i: nat, m: nat, w: Window, floor: nat)
    requires Rising(all) && i < m <= |all| && InWindow(w, all[i]) && IsKind(f, all[i], Turns)
    requires !Kept(f, all[..m], i, w)
    requires s.watermark == floor && i !in s.stored
    requires forall l: Line :: !l.Malformed? && TimeOf(l) > 0 ==> (InWindow(w, l) <==> TimeOf(l) > floor)
    ensures var after := ApplyRun(f, s.(lines := all[..m]), Scheduled(0), 0, Complete);
            after.watermark >= TimeOf(all[i]) && i !in after.stored && AllAfter(all[m..], after.watermark)
  {
    var lines, v := all[..m], Window(floor, 0);
    assert lines[i] == all[i];
    forall j | 0 <= j < m ensures InWindow(w, lines[j]) <==> InWindow(v, lines[j]) { assert lines[j] == all[j]; }
    SameWindowKeeps(f, lines, i, w, v);
    assert Reads(f, lines, i, v);
    forall j, x: nat | m <= j < |all| && !all[j].Malformed? && x < m && Reads(f, lines, x, v)
      ensures TimeOf(lines[x]) < TimeOf(all[j])
    {
      assert lines[x] == all[x];
    }
  }

  /**
   A message survives every schedule of punctual arrivals and complete, timely
   runs exactly when every batch that may read it names a project for its group.
   */
  lemma SurvivesEveryScheduleIff(f: File, all: seq<Line>, i: nat)
    requires Rising(all) && i < |all| && IsKind(f, all[i], Turns)
    ensures (forall events :: Schedule(f, all, events) ==> Survives(f, all, i, events)) <==> Safe(f, all, i)
  {
    if Safe(f, all, i) {
      forall events | Schedule(f, all, events) ensures Survives(f, all, i, events) { SafeSurvives(f, all, i, events); }
    } else {
      var m: nat, w :| i < m <= |all| && InWindow(w, all[i]) && !Kept(f, all[..m], i, w);
      var events := ScheduleFor(f, all, i, m, w);
    }
  }

  lemma SafeSurvives(f: File, all: seq<Line>, i: nat, events: seq<Event>)
    requires i < |all| && Safe(f, all, i) && Schedule(f, all, events)
    ensures Survives(f, all, i, events)
  {
    assert EMPTY.lines + all == all;
    NoRecordLost(Turns, f, EMPTY, events);
    LinesArrive(f, EMPTY, events);
    assert Sure(Turns, f, all, i);
  }

  // ----- when it is lost -----

  predicate ScheduledOnly(e: Event) { e.Run? ==> e.look.Scheduled? }

  /** A line at or below the watermark that is not stored. */
  predicate Lost(f: File, s: State, i: nat) { i < |s.lines| && Passed(f, s, i) && i !in s.stored }

  /** Scheduled runs leave everything at or below the watermark as it is. */
  lemma PassedIsFinal(f: File, s: State, e: Event, i: nat)
    requires ScheduledOnly(e) && i < |s.lines| && Passed(f, s, i)
    ensures Passed(f, Apply(f, s, e), i) && (i in Apply(f, s, e).stored <==> i in s.stored)
  {}

  /** A lost line stays lost through any number of scheduled runs. */
  lemma {:induction false} LostForScheduledRuns(f: File, s: State, events: seq<Event>, i: nat)
    requires i < |s.lines| && Passed(f, s, i) && forall e :: e in events ==> ScheduledOnly(e)
    ensures i < |ApplyAll(f, s, events).lines| && Passed(f, ApplyAll(f, s, events), i)
    ensures Lost(f, ApplyAll(f, s, events), i) <==> Lost(f, s, i)
    decreases |events|
  {
    if events != [] {
      PassedIsFinal(f, s, events[0], i);
      LostForScheduledRuns(f, Apply(f, s, events[0]), events[1..], i);
    }
  }

  /** The run that takes the watermark past line `i`. */
  ghost predicate Passes(f: File, s: State, e: Event, i: nat) {
    && e.Run? && e.fate.Complete? && i < |s.lines| && Yielding(f, s.lines[i])
    && s.watermark < TimeOf(s.lines[i]) <= Apply(f, s, e).watermark
  }

  /** No run has passed line `i` yet. */
  ghost predicate Undecided(f: File, s: State, i: nat) {
    && i !in s.stored && (forall j :: j in s.stored ==> j < |s.lines|)
    && (i < |s.lines| ==> !Passed(f, s, i))
  }

  lemma UndecidedStep(f: File, s: State, e: Event, i: nat)
    requires Undecided(f, s, i) && (i < |s.lines| ==> !IsKind(f, s.lines[i], Requests))
    ensures var next := Apply(f, s, e); (i < |next.lines| && Passed(f, next, i)) || Undecided(f, next, i)
  {}

  lemma PassedNow(f: File, s: State, e: Event, i: nat)
    requires Punctual(s, e) && Timely(f, s, e) && CrashSafe(Turns, e) && Undecided(f, s, i)
    requires i < |Apply(f, s, e).lines| && Passed(f, Apply(f, s, e), i) && IsKind(f, Apply(f, s, e).lines[i], Turns)
    ensures Passes(f, s, e, i) && Reads(f, s.lines, i, WindowOf(s, e.look))
    ensures i in Apply(f, s, e).stored <==> Placed(f, s.lines, i, WindowOf(s, e.look))
  {
    if e.Run? && e.fate.Complete? {
      RunReads(f, s, e, i);
      KeptIff(f, s.lines, i, WindowOf(s, e.look));
    }
  }

  /** The run passes the line, and what it read decides whether the line is stored. */
  ghost predicate Decides(f: File, s: State, e: Event, i: nat, stored: bool) {
    && Passes(f, s, e, i) && Reads(f, s.lines, i, WindowOf(s, e.look))
    && (stored <==> Placed(f, s.lines, i, WindowOf(s, e.look)))
  }

  /**
   In a history of punctual arrivals and complete, timely, scheduled runs a
   message is stored exactly when the one run that passes it read, in the same
   batch, a line of its group that names a project.
   */
  lemma {:induction false} StoredByItsRunIff(f: File, s: State, events: seq<Event>, i: nat) returns (n: nat)
    requires WellRun(Turns, f, s, events) && forall e :: e in events ==> ScheduledOnly(e)
    requires Undecided(f, s, i)
    requires var end := ApplyAll(f, s, events); i < |end.lines| && IsKind(f, end.lines[i], Turns) && Passed(f, end, i)
    ensures n < |events|
    ensures Decides(f, ApplyAll(f, s, events[..n]), events[n], i, i in ApplyAll(f, s, events).stored)
    decreases |events|
  {
    var next := Apply(f, s, events[0]);
    LinesArrive(f, s, events);
    UndecidedStep(f, s, events[0], i);
    if i < |next.lines| && Passed(f, next, i) {
      n := 0;
      assert events[..0] == [];
      LinesArrive(f, next, events[1..]);
      PassedNow(f, s, events[0], i);
      LostForScheduledRuns(f, next, events[1..], i);
    } else {
      n := StoredByItsRunIff(f, next, events[1..], i);
      assert events[..n + 1][1..] == events[1..][..n] && events[..n + 1][0] == events[0];
      n := n + 1;
    }
  }

  /** A complete, timely run writes every new request, and exactly the messages whose group its batch places. */
  lemma CompleteRunCatchesUp(f: File, s: State, look: Lookback, others: nat, i: nat)
    requires Timely(f, s, Run(look, others, Complete)) && i < |s.lines| && Yielding(f, s.lines[i])
    requires TimeOf(s.lines[i]) > s.watermark && i !in s.stored
    ensures var after, w := ApplyRun(f, s, look, others, Complete), WindowOf(s, look);
            && (IsKind(f, s.lines[i], Requests) ==> i in after.stored)
            && (IsKind(f, s.lines[i], Turns) ==>
                  (i in after.stored <==> Placed(f, s.lines, i, w)))
  {
    RunReads(f, s, Run(look, others, Complete), i);
    if IsKind(f, s.lines[i], Turns) { KeptIff(f, s.lines, i, WindowOf(s, look)); }
  }

  /** A crash between the commits loses exactly the unstored messages at or below the watermark it committed. */
  lemma CrashBetweenCommitsLoses(f: File, s: State, look: Lookback, others: nat, i: nat)
    requires i < |s.lines| && i !in s.stored && Yielding(f, s.lines[i])
    ensures var after := ApplyRun(f, s, look, others, CrashBetweenCommits);
            && (IsKind(f, s.lines[i], Turns) ==> (Lost(f, after, i) <==> TimeOf(s.lines[i]) <= after.watermark))
            && (Reads(f, s.lines, i, WindowOf(s, look)) ==>
                  TimeOf(s.lines[i]) <= after.watermark && (IsKind(f, s.lines[i], Requests) ==> i in after.stored))
  {}

  /** An error during the persist step loses exactly those of them whose turn was not yet written. */
  lemma ErrorInPersistLoses(f: File, s: State, look: Lookback, others: nat, n: nat, i: nat)
    requires i < |s.lines| && i !in s.stored && IsKind(f, s.lines[i], Turns)
    ensures var after := ApplyRun(f, s, look, others, ErrorInPersist(n));
            Lost(f, after, i)
            <==> TimeOf(s.lines[i]) <= after.watermark && !(i < n && Kept(f, s.lines, i, WindowOf(s, look)))
  {}

  /** An error during the scan loses nothing: the rows so far are kept and the watermark stays. */
  lemma ErrorInIngestLosesNothing(f: File, s: State, look: Lookback, others: nat, n: nat, i: nat)
    ensures var after := ApplyRun(f, s, look, others, ErrorInIngest(n));
            && after.watermark == s.watermark && s.stored <= after.stored
            && (Lost(f, after, i) ==> Lost(f, s, i))
  {}

  /** A run whose window starts too late loses a line as soon as it reads a newer one. */
  lemma LateWindowLoses(f: File, s: State, look: Lookback, others: nat, i: nat, newer: nat)
    requires i < |s.lines| && newer < |s.lines| && i !in s.stored && Yielding(f, s.lines[i])
    requires TimeOf(s.lines[i]) < look.cutoff && Reads(f, s.lines, newer, WindowOf(s, look))
    ensures Lost(f, ApplyRun(f, s, look, others, Complete), i)
  {}

  /**
   An explicit window recovers a lost line exactly when it starts at or before
   it and before the watermark, and, for a message, also reaches a line that
   names its group's project.
   */
  lemma BackfillRecovers(f: File, s: State, i: nat, look: Lookback, others: nat)
    requires Lost(f, s, i) && TimeOf(s.lines[i]) > 0 && look.Explicit?
    requires IsKind(f, s.lines[i], Requests) || IsKind(f, s.lines[i], Turns)
    ensures var w := Window(0, look.cutoff);
            i in ApplyRun(f, s, look, others, Complete).stored
            <==> && look.cutoff <= TimeOf(s.lines[i]) && look.cutoff < s.watermark
                 && (IsKind(f, s.lines[i], Turns) ==> Placed(f, s.lines, i, w))
  {
    var w := Window(0, look.cutoff);
    if look.cutoff <= TimeOf(s.lines[i]) && IsKind(f, s.lines[i], Turns) { KeptIff(f, s.lines, i, w); }
  }

  /** Some window above the watermark still stores line `i`. */
  ghost predicate InReach(f: File, s: State, i: nat)
    requires i < |s.lines| && Yielding(f, s.lines[i])
  {
    && TimeOf(s.lines[i]) > s.watermark
    && (IsKind(f, s.lines[i], Requests) || exists c :: Kept(f, s.lines, i, Window(s.watermark, c)))
  }

  /** A later floor acts like an earlier one with a later cutoff. */
  lemma RaisedFloor(lines: seq<Line>, low: nat, high: nat, c: int, d: int)
    requires low <= high && d == if c > high then c else high + 1
    ensures SameWindow(lines, Window(high, c), Window(low, d))
  {}

  lemma ReachShrinks(f: File, lines: seq<Line>, i: nat, low: nat, high: nat, c: int)
    requires i < |lines| && low <= high && Kept(f, lines, i, Window(high, c))
    ensures exists d :: Kept(f, lines, i, Window(low, d))
  {
    var d := if c > high then c else high + 1;
    RaisedFloor(lines, low, high, c, d);
    SameWindowKeeps(f, lines, i, Window(high, c), Window(low, d));
  }

  lemma OutOfReachIsUnread(f: File, s: State, e: Event, i: nat)
    requires e.Run? && ScheduledOnly(e) && i < |s.lines| && Yielding(f, s.lines[i]) && i !in s.stored
    requires !InReach(f, s, i)
    ensures i !in Apply(f, s, e).stored
  {
    assert WindowOf(s, e.look) == Window(s.watermark, e.look.cutoff);
  }

  lemma StaysOutOfReach(f: File, s: State, e: Event, i: nat)
    requires e.Run? && ScheduledOnly(e) && i < |s.lines| && Yielding(f, s.lines[i]) && i !in s.stored
    requires !InReach(f, s, i)
    ensures i !in Apply(f, s, e).stored && !InReach(f, Apply(f, s, e), i)
  {
    OutOfReachIsUnread(f, s, e, i);
    var after := Apply(f, s, e);
    assert after.lines == s.lines && after.watermark >= s.watermark;
    if c :| Kept(f, s.lines, i, Window(after.watermark, c)) {
      ReachShrinks(f, s.lines, i, s.watermark, after.watermark, c);
    }
  }

  lemma {:induction false} OutOfReachForRuns(f: File, s: State, events: seq<Event>, i: nat)
    requires forall e :: e in events ==> e.Run? && ScheduledOnly(e)
    requires i < |s.lines| && Yielding(f, s.lines[i]) && i !in s.stored && !InReach(f, s, i)
    ensures i !in ApplyAll(f, s, events).stored
    decreases |events|
  {
    if events != [] {
      StaysOutOfReach(f, s, events[0], i);
      OutOfReachForRuns(f, Apply(f, s, events[0]), events[1..], i);
    }
  }

  /** Some scheduled runs bring line `i` in without new lines. */
  ghost predicate Recoverable(f: File, s: State, i: nat) {
    exists events: seq<Event> :: (forall e :: e in events ==> e.Run? && ScheduledOnly(e))
        && i in ApplyAll(f, s, events).stored
  }

  lemma OneRunReaches(f: File, s: State, i: nat, c: int)
    requires i in ApplyRun(f, s, Scheduled(c), 0, Complete).stored
    ensures Recoverable(f, s, i)
  {
    var run := Run(Scheduled(c), 0, Complete);
    assert [run][1..] == [];
    assert ApplyAll(f, s, [run]) == ApplyRun(f, s, Scheduled(c), 0, Complete);
  }

  /**
   Scheduled runs can still bring a line in exactly when it is stored already or
   some window above the watermark stores it.
   */
  lemma ScheduledReachIff(f: File, s: State, i: nat)
    requires i < |s.lines| && (IsKind(f, s.lines[i], Requests) || IsKind(f, s.lines[i], Turns))
    ensures Recoverable(f, s, i) <==> i in s.stored || InReach(f, s, i)
  {
    if i in s.stored {
      var none: seq<Event> := [];
      assert ApplyAll(f, s, none) == s;
    } else if !InReach(f, s, i) {
      forall events: seq<Event> | forall e :: e in events ==> e.Run? && ScheduledOnly(e)
        ensures i !in ApplyAll(f, s, events).stored
      {
        OutOfReachForRuns(f, s, events, i);
      }
    } else if IsKind(f, s.lines[i], Turns) {
      var c :| Kept(f, s.lines, i, Window(s.watermark, c));
      OneRunReaches(f, s, i, c);
    } else {
      OneRunReaches(f, s, i, TimeOf(s.lines[i]));
    }
  }

  // ----- the store -----

  /** The places of the lines read among the first `n`. */
  function ReadTo(f: File, lines: seq<Line>, n: nat, w: Window): seq<nat>
    requires n <= |lines|
  {
    if n == 0 then [] else ReadTo(f, lines, n - 1, w) + if Reads(f, lines, n - 1, w) then [n - 1] else []
  }

  /** `i` is a place whose line yields record `r`. */
  predicate ReadAs(f: File, lines: seq<Line>, i: nat, w: Window, r: Record) {
    i < |lines| && Reads(f, lines, i, w) && r == RecordAt(f, lines, i, w)
  }

  lemma {:induction false} ReadPlaces(f: File, lines: seq<Line>, n: nat, w: Window)
    requires n <= |lines|
    ensures var places, records := ReadTo(f, lines, n, w), Yields(f, lines, n, w);
            |places| == |records| && forall x :: 0 <= x < |places| ==> ReadAs(f, lines, places[x], w, records[x])
    decreases n
  {
    if n > 0 { ReadPlaces(f, lines, n - 1, w); }
  }

  lemma {:induction false} ReadIsListed(f: File, lines: seq<Line>, n: nat, w: Window, i: nat)
    requires i < n <= |lines| && Reads(f, lines, i, w)
    ensures i in ReadTo(f, lines, n, w)
    decreases n
  {
    if i < n - 1 { ReadIsListed(f, lines, n - 1, w, i); }
  }

  /** The kept ones among some places. */
  function KeptAmong(f: File, lines: seq<Line>, places: seq<nat>, w: Window): set<nat> {
    if places == [] then {}
    else
      var i := places[|places| - 1];
      KeptAmong(f, lines, places[..|places| - 1], w) + if i < |lines| && Kept(f, lines, i, w) then {i} else {}
  }

  lemma {:induction false} KeptAmongIff(f: File, lines: seq<Line>, places: seq<nat>, w: Window, i: nat)
    ensures i in KeptAmong(f, lines, places, w) <==> i in places && i < |lines| && Kept(f, lines, i, w)
    decreases |places|
  {
    if places != [] {
      KeptAmongIff(f, lines, places[..|places| - 1], w, i);
      assert places == places[..|places| - 1] + [places[|places| - 1]];
    }
  }

  function KeptOne(f: File, lines: seq<Line>, i: nat, w: Window): set<nat> {
    if i < |lines| && Kept(f, lines, i, w) then {i} else {}
  }

  lemma KeptAmongNext(f: File, lines: seq<Line>, places: seq<nat>, x: nat, w: Window)
    requires x < |places|
    ensures KeptAmong(f, lines, places[..x + 1], w)
            == KeptAmong(f, lines, places[..x], w) + KeptOne(f, lines, places[x], w)
  {
    assert places[..x + 1][..x] == places[..x];
  }

  /** The persist loop has gone over the first `x` records, all of them from the first `n` lines. */
  ghost predicate Handled(f: File, lines: seq<Line>, n: nat, w: Window, x: nat, kept: set<nat>)
    requires n <= |lines|
  {
    x <= |ReadTo(f, lines, n, w)| && kept == KeptAmong(f, lines, ReadTo(f, lines, n, w)[..x], w)
  }

  lemma HandledNone(f: File, lines: seq<Line>, n: nat, w: Window)
    requires n <= |lines|
    ensures Handled(f, lines, n, w, 0, {})
  {}

  lemma HandledNext(f: File, lines: seq<Line>, n: nat, w: Window, x: nat, kept: set<nat>)
    requires n <= |lines| && x < |ReadTo(f, lines, |lines|, w)| && Handled(f, lines, n, w, x, kept)
    requires ReadTo(f, lines, |lines|, w)[x] < n
    ensures Handled(f, lines, n, w, x + 1, kept + KeptOne(f, lines, ReadTo(f, lines, |lines|, w)[x], w))
  {
    var all, some := ReadTo(f, lines, |lines|, w), ReadTo(f, lines, n, w);
    PlaceBelowIff(f, lines, n, w, x);
    ReadPrefix(f, lines, n, |lines|, w);
    assert some[x] == all[..|some|][x] == all[x];
    KeptAmongNext(f, lines, some, x, w);
  }

  lemma HandledAll(f: File, lines: seq<Line>, n: nat, w: Window, x: nat, kept: set<nat>)
    requires n <= |lines| && x <= |ReadTo(f, lines, |lines|, w)| && Handled(f, lines, n, w, x, kept)
    requires x < |ReadTo(f, lines, |lines|, w)| ==> ReadTo(f, lines, |lines|, w)[x] >= n
    ensures kept == KeptTo(f, lines, n, w)
  {
    var all, some := ReadTo(f, lines, |lines|, w), ReadTo(f, lines, n, w);
    ReadPrefix(f, lines, n, |lines|, w);
    if x < |all| { PlaceBelowIff(f, lines, n, w, x); }
    assert some[..x] == some;
    KeptAmongAll(f, lines, n, w);
  }

  lemma KeptAmongAll(f: File, lines: seq<Line>, n: nat, w: Window)
    requires n <= |lines|
    ensures KeptAmong(f, lines, ReadTo(f, lines, n, w), w) == KeptTo(f, lines, n, w)
  {
    var places := ReadTo(f, lines, n, w);
    forall i: nat ensures i in KeptAmong(f, lines, places, w) <==> i in KeptTo(f, lines, n, w) {
      KeptAmongIff(f, lines, places, w, i);
      if i in places { ReadBelow(f, lines, n, w, i); }
      if i < n && Kept(f, lines, i, w) { ReadIsListed(f, lines, n, w, i); }
    }
  }

  lemma {:induction false} ReadBelow(f: File, lines: seq<Line>, n: nat, w: Window, i: nat)
    requires n <= |lines| && i in ReadTo(f, lines, n, w)
    ensures i < n
    decreases n
  {
    if i != n - 1 { ReadBelow(f, lines, n - 1, w, i); }
  }

  /** The places read among the first `m` lines come first. */
  lemma {:induction false} ReadPrefix(f: File, lines: seq<Line>, m: nat, n: nat, w: Window)
    requires m <= n <= |lines|
    ensures var some, all := ReadTo(f, lines, m, w), ReadTo(f, lines, n, w);
            |some| <= |all| && all[..|some|] == some && forall x :: |some| <= x < |all| ==> all[x] >= m
    decreases n
  {
    if m < n { ReadPrefix(f, lines, m, n - 1, w); }
  }

  /** A place below `m` is one of the first. */
  lemma PlaceBelowIff(f: File, lines: seq<Line>, m: nat, w: Window, x: nat)
    requires m <= |lines| && x < |ReadTo(f, lines, |lines|, w)|
    ensures ReadTo(f, lines, |lines|, w)[x] < m <==> x < |ReadTo(f, lines, m, w)|
  {
    var all, some := ReadTo(f, lines, |lines|, w), ReadTo(f, lines, m, w);
    ReadPrefix(f, lines, m, |lines|, w);
    if x < |some| {
      assert all[x] == all[..|some|][x] == some[x];
      ReadBelow(f, lines, m, w, some[x]);
    }
  }

  /** What the persist step asks of a record is what keeps its line. */
  lemma KeptByRecord(f: File, lines: seq<Line>, w: Window, x: nat)
    requires var records := Scan(f, lines, w); x < |records|
    ensures var records, places := Scan(f, lines, w), ReadTo(f, lines, |lines|, w);
            && |places| == |records| && places[x] < |lines|
            && (Kept(f, lines, places[x], w) <==> records[x].rtype.Message? && StoredAs(records, records[x]).Some?)
  {
    ReadPlaces(f, lines, |lines|, w);
    assert ReadAs(f, lines, ReadTo(f, lines, |lines|, w)[x], w, Scan(f, lines, w)[x]);
  }

  lemma RoutersNext(f: File, lines: seq<Line>, n: nat, w: Window, base: set<nat>)
    requires n < |lines|
    ensures base + RoutersTo(f, lines, n + 1, w)
            == base + RoutersTo(f, lines, n, w)
                + (if Reads(f, lines, n, w) && IsKind(f, lines[n], Requests) then {n} else {})
  {}

  /** The database of one source: what this run sees and what a crash leaves. */
  class SourceStore {
    const f: File
    var lines: seq<Line>
    var watermark: nat
    var stored: set<nat>
    var durable: State

    constructor (f: File)
      ensures this.f == f && durable == EMPTY && Clean()
    {
      this.f := f;
      lines, watermark, stored := [], 0, {};
      durable := EMPTY;
    }

    /** Between runs nothing is pending. */
    ghost predicate Clean()
      reads this
    {
      durable == State(lines, watermark, stored)
    }

    /** One line read: its time, and its row if it is a router request. */
    method Note(i: nat, maxTs: nat) returns (newMax: nat)
      requires i < |lines| && Yielding(f, lines[i])
      modifies this`stored
      ensures newMax == if TimeOf(lines[i]) > maxTs then TimeOf(lines[i]) else maxTs
      ensures stored == old(stored) + if IsKind(f, lines[i], Requests) then {i} else {}
    {
      newMax := if TimeOf(lines[i]) > maxTs then TimeOf(lines[i]) else maxTs;
      if TypeOf(f, lines[i]).RouterRequest? { stored := stored + {i}; }
    }

    /** One line of the scan: its record and place, its time, its row if it is a router request. */
    method ReadLine(i: nat, w: Window, carry: Carry, maxTs: nat)
      returns (records: seq<Record>, places: seq<nat>, carry': Carry, newMax: nat)
      requires i < |lines| && carry == CarryAt(f, lines, i, w)
      modifies this`stored
      ensures records == YieldAt(f, lines, i, w) && places == (if Reads(f, lines, i, w) then [i] else [])
      ensures carry' == CarryAt(f, lines, i + 1, w)
      ensures newMax == if Reads(f, lines, i, w) && TimeOf(lines[i]) > maxTs then TimeOf(lines[i]) else maxTs
      ensures stored == old(stored) + if Reads(f, lines, i, w) && IsKind(f, lines[i], Requests) then {i} else {}
    {
      records, places, carry', newMax := [], [], carry, maxTs;
      if InWindow(w, lines[i]) {
        if Yielding(f, lines[i]) {
          records, places := [Emit(f, lines[i], carry)], [i];
          newMax := Note(i, maxTs);
        }
        carry' := Next(f, lines[i], carry);
      }
    }

    /**
     The scan: line by line, with the facts the connector carries, noting times and
     writing router rows as they come.  With `stop` it errors there, before the
     watermark is written.
     */
    method Ingest(look: Lookback, others: nat, stop: Option<nat>) returns (records: seq<Record>, places: seq<nat>)
      modifies this`watermark, this`stored
      ensures var w, n := Window(Floor(old(watermark), look), look.cutoff), Until(stop);
              && records == Yields(f, lines, n, w) && places == ReadTo(f, lines, n, w)
              && watermark == (if stop.Some? then old(watermark) else Mark(f, lines, n, w, Max(old(watermark), others)))
              && stored == old(stored) + RoutersTo(f, lines, n, w)
    {
      var w, n := Window(Floor(watermark, look), look.cutoff), Until(stop);
      var carry, maxTs := Start(f), Max(watermark, others);
      records, places := [], [];
      assert stored + RoutersTo(f, lines, 0, w) == stored;
      for i := 0 to n
        invariant watermark == old(watermark) && carry == CarryAt(f, lines, i, w)
        invariant records == Yields(f, lines, i, w) && places == ReadTo(f, lines, i, w)
        invariant maxTs == Mark(f, lines, i, w, Max(watermark, others))
        invariant stored == old(stored) + RoutersTo(f, lines, i, w)
      {
        RoutersNext(f, lines, i, w, old(stored));
        var one, place;
        one, place, carry, maxTs := ReadLine(i, w, carry, maxTs);
        records, places := records + one, places + place;
      }
      if stop.None? { watermark := maxTs; }
    }

    /** The number of lines handled before the stop. */
    function Until(stop: Option<nat>): (n: nat)
      reads this`lines
      ensures n <= |lines|
    {
      if stop.Some? then Min(stop.value, |lines|) else |lines|
    }

    /** One scanned record: a turn, if it is a message of a group that names a project. */
    method PersistTurn(records: seq<Record>, places: seq<nat>, x: nat, ghost w: Window)
      requires records == Scan(f, lines, w) && places == ReadTo(f, lines, |lines|, w) && x < |records| == |places|
      modifies this`stored
      ensures stored == old(stored) + KeptOne(f, lines, places[x], w)
    {
      KeptByRecord(f, lines, w, x);
      if records[x].rtype.Message? && StoredAs(records, records[x]).Some? { stored := stored + {places[x]}; }
    }

    /** The turns of the groups that name a project, up to the stop. */
    method PersistTurns(records: seq<Record>, places: seq<nat>, stop: Option<nat>, ghost w: Window)
      requires records == Scan(f, lines, w) && places == ReadTo(f, lines, |lines|, w)
      modifies this`stored
      ensures stored == old(stored) + KeptTo(f, lines, Until(stop), w)
    {
      var n, x := Until(stop), 0;
      ghost var kept: set<nat> := {};
      ReadPlaces(f, lines, |lines|, w);
      HandledNone(f, lines, n, w);
      while x < |records| && places[x] < n
        invariant x <= |places| && stored == old(stored) + kept && Handled(f, lines, n, w, x, kept)
      {
        ghost var one := KeptOne(f, lines, places[x], w);
        HandledNext(f, lines, n, w, x, kept);
        PersistTurn(records, places, x, w);
        Sequences.UnionAssoc(old(stored), kept, one);
        x, kept := x + 1, kept + one;
      }
      HandledAll(f, lines, n, w, x, kept);
    }

    method Commit()
      modifies this`durable
      ensures durable == State(lines, watermark, stored)
    {
      durable := State(lines, watermark, stored);
    }

    /** After a crash the next process sees the committed state. */
    method Reopen()
      modifies this`watermark, this`stored
      ensures watermark == durable.watermark && stored == durable.stored
    {
      watermark, stored := durable.watermark, durable.stored;
    }

    /** An error still ends in the final commit; a crash does not. */
    method RunOnce(look: Lookback, others: nat, fate: Fate)
      requires Clean()
      modifies this
      ensures Clean() && durable == ApplyRun(f, old(durable), look, others, fate)
    {
      ghost var w := WindowOf(durable, look);
      var records, places := Ingest(look, others, if fate.ErrorInIngest? then Some(fate.n) else None);
      if fate.CrashBeforeIngestCommit? {
        Reopen();
        return;
      }
      Commit();
      if fate.ErrorInIngest? || fate.CrashBetweenCommits? { return; }
      PersistTurns(records, places, if fate.ErrorInPersist? then Some(fate.n) else None, w);
      Commit();
    }
  }
}
