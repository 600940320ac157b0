/**
 One transcript file scanned and persisted in two runs, against one run over the
 same lines: exactly when both store the same session and turn ids.  The records
 of one file form one group, so each batch stores all of it in one place, or
 nowhere.
 */
module TwoRuns {
  import opened Wrappers
  import opened Records
  import opened SessionGroups
  import opened GroupingLaws
  import opened PathDecode
  import opened Persist
  import opened Batches
  import opened ConnectorScan

  // ----- a batch of one group -----

  ghost predicate OneGroup(records: seq<Record>, k: GroupKey) { forall r :: r in records ==> KeyOf(r) == Some(k) }

  predicate HasProject(records: seq<Record>) { exists r :: r in records && r.projectPath != "" }

  predicate HasMessage(records: seq<Record>) { exists r :: r in records && r.rtype.Message? }

  predicate HasStart(records: seq<Record>) { exists r :: r in records && NamesSession(r) }

  /** The id under which the batch's group is known, and the time of the start that gave it. */
  function Naming(records: seq<Record>, k: GroupKey): (string, Option<int>) {
    var g := AbsorbAll(NewGroup(k), records);
    (g.nativeId, g.sessionStartTs)
  }

  function NameOf(records: seq<Record>, k: GroupKey): string { Naming(records, k).0 }

  /** Where the batch's group is stored. */
  function Home(records: seq<Record>, k: GroupKey): Option<(string, string)> {
    if HasProject(records) then Some((k.0, NameOf(records, k))) else None
  }

  lemma {:induction false} MembersOfOneGroup(records: seq<Record>, k: GroupKey)
    requires OneGroup(records, k)
    ensures Members(records, k) == records
    decreases |records|
  {
    if records != [] {
      var n := |records| - 1;
      MembersOfOneGroup(records[..n], k);
      assert records[n] in records && records == records[..n] + [records[n]];
    }
  }

  lemma StoredAtHome(records: seq<Record>, k: GroupKey, r: Record)
    requires OneGroup(records, k) && r in records
    ensures StoredAs(records, r) == Home(records, k)
  {
    MembersOfOneGroup(records, k);
    GroupSummarises(k, records);
    GroupKeepsSource(k, records);
  }

  /** The turn ids of messages stored at one place. */
  ghost function TurnsAt(h: StableId, at: Option<(string, string)>, records: seq<Record>): set<string> {
    set r | r in records && r.rtype.Message? && at.Some? :: TurnIdOf(h, SessionIdOf(h, at.value.0, at.value.1), r)
  }

  ghost function SessionsAt(h: StableId, at: Option<(string, string)>): set<string> {
    if at.None? then {} else {SessionIdOf(h, at.value.0, at.value.1)}
  }

  lemma IdsAtHome(h: StableId, records: seq<Record>, k: GroupKey)
    requires OneGroup(records, k)
    ensures SessionIds(h, records) == SessionsAt(h, Home(records, k))
    ensures TurnIds(h, records) == TurnsAt(h, Home(records, k), records)
  {
    forall r | r in records ensures StoredAs(records, r) == Home(records, k) { StoredAtHome(records, k, r); }
    if Home(records, k).Some? {
      var r :| r in records && r.projectPath != "";
      assert StoredAs(records, r).Some?;
    }
  }

  // ----- two batches against one -----

  /** Records that differ at most in project, branch and model. */
  predicate SameTurn(a: Record, b: Record) {
    a == b.(projectPath := a.projectPath, gitBranch := a.gitBranch, model := a.model)
  }

  ghost predicate Alike(a: seq<Record>, b: seq<Record>) {
    |a| == |b| && forall i :: 0 <= i < |a| ==> SameTurn(a[i], b[i])
  }

  ghost predicate Precedes(a: seq<Record>, b: seq<Record>) {
    forall x, y :: x in a && y in b ==> x.ts < y.ts
  }

  ghost predicate SameIds(h: StableId, whole: seq<Record>, one: seq<Record>, two: seq<Record>) {
    && SessionIds(h, whole) == SessionIds(h, one) + SessionIds(h, two)
    && TurnIds(h, whole) == TurnIds(h, one) + TurnIds(h, two)
  }

  function AsSet(at: Option<(string, string)>): set<(string, string)> { if at.None? then {} else {at.value} }

  /** The places agree, and no part with messages is left out. */
  ghost predicate SameHomes(k: GroupKey, whole: seq<Record>, one: seq<Record>, two: seq<Record>) {
    && AsSet(Home(whole, k)) == AsSet(Home(one, k)) + AsSet(Home(two, k))
    && (Home(whole, k).Some? && HasMessage(one) ==> Home(one, k) == Home(whole, k))
    && (Home(whole, k).Some? && HasMessage(two) ==> Home(two, k) == Home(whole, k))
  }

  ghost predicate Split(k: GroupKey, whole: seq<Record>, one: seq<Record>, two: seq<Record>) {
    && OneGroup(whole, k) && OneGroup(one, k) && OneGroup(two, k)
    && Alike(whole, one + two) && Precedes(one, two)
  }

  lemma Counterpart(whole: seq<Record>, one: seq<Record>, two: seq<Record>, m: Record) returns (x: Record)
    requires Alike(whole, one + two) && (m in one || m in two)
    ensures x in whole && SameTurn(x, m)
  {
    var both := one + two;
    if m in one {
      var i :| 0 <= i < |one| && one[i] == m;
      assert both[i] == m;
      x := whole[i];
    } else {
      var i :| 0 <= i < |two| && two[i] == m;
      assert both[|one| + i] == m;
      x := whole[|one| + i];
    }
  }

  lemma Original(whole: seq<Record>, one: seq<Record>, two: seq<Record>, x: Record) returns (m: Record)
    requires Alike(whole, one + two) && x in whole
    ensures (m in one || m in two) && SameTurn(x, m)
  {
    var i :| 0 <= i < |whole| && whole[i] == x;
    m := (one + two)[i];
  }

  lemma TurnsAtOnePlace(h: StableId, at: Option<(string, string)>, whole: seq<Record>, one: seq<Record>,
                        two: seq<Record>)
    requires Alike(whole, one + two)
    ensures TurnsAt(h, at, whole) == TurnsAt(h, at, one) + TurnsAt(h, at, two)
  {
    forall x | x in whole && x.rtype.Message? && at.Some?
      ensures TurnIdOf(h, SessionIdOf(h, at.value.0, at.value.1), x) in TurnsAt(h, at, one) + TurnsAt(h, at, two)
    {
      var m := Original(whole, one, two, x);
    }
    forall m | (m in one || m in two) && m.rtype.Message? && at.Some?
      ensures TurnIdOf(h, SessionIdOf(h, at.value.0, at.value.1), m) in TurnsAt(h, at, whole)
    {
      var x := Counterpart(whole, one, two, m);
    }
  }

  lemma NoMessagesNoTurns(h: StableId, at: Option<(string, string)>, records: seq<Record>)
    requires !HasMessage(records)
    ensures TurnsAt(h, at, records) == {}
  {}

  lemma SameHomesSameIds(h: StableId, k: GroupKey, whole: seq<Record>, one: seq<Record>, two: seq<Record>)
    requires Split(k, whole, one, two) && SameHomes(k, whole, one, two)
    ensures SameIds(h, whole, one, two)
  {
    var at, at1, at2 := Home(whole, k), Home(one, k), Home(two, k);
    IdsAtHome(h, whole, k);
    IdsAtHome(h, one, k);
    IdsAtHome(h, two, k);
    SessionsOfHomes(h, at, at1, at2);
    TurnsAtOnePlace(h, at, whole, one, two);
    if at.Some? {
      if !HasMessage(one) { NoMessagesNoTurns(h, at, one); NoMessagesNoTurns(h, at1, one); }
      if !HasMessage(two) { NoMessagesNoTurns(h, at, two); NoMessagesNoTurns(h, at2, two); }
    } else {
      SameSets(at, at1, at2);
    }
  }

  lemma SameSets(at: Option<(string, string)>, at1: Option<(string, string)>, at2: Option<(string, string)>)
    requires AsSet(at) == AsSet(at1) + AsSet(at2)
    ensures at.None? ==> at1.None? && at2.None?
    ensures at.Some? ==> (at1.None? || at1 == at) && (at2.None? || at2 == at) && (at1.Some? || at2.Some?)
  {
    if at1.Some? { assert at1.value in AsSet(at); }
    if at2.Some? { assert at2.value in AsSet(at); }
    if at.Some? { assert at.value in AsSet(at1) + AsSet(at2); }
  }

  lemma SessionsOfHomes(h: StableId, at: Option<(string, string)>, at1: Option<(string, string)>,
                        at2: Option<(string, string)>)
    requires AsSet(at) == AsSet(at1) + AsSet(at2)
    ensures SessionsAt(h, at) == SessionsAt(h, at1) + SessionsAt(h, at2)
  {
    SameSets(at, at1, at2);
  }

  /** A hash that tells one place from all others. */
  function TellsPlace(p: (string, string)): StableId {
    StableId(path => "", (a, b) => if (a, b) == p then "1" else "0", (sid, ts, role, tool, fp) => "")
  }

  /** A hash that tells one message from all others. */
  function TellsMessage(m: Record): StableId {
    StableId(path => "", (a, b) => "", (sid, ts, role, tool, fp) => if ts == m.ts then "1" else "0")
  }

  lemma PlacesDiffer(k: GroupKey, whole: seq<Record>, one: seq<Record>, two: seq<Record>, p: (string, string))
    requires Split(k, whole, one, two)
    requires p in AsSet(Home(whole, k)) <==> p !in AsSet(Home(one, k)) + AsSet(Home(two, k))
    ensures !SameIds(TellsPlace(p), whole, one, two)
  {
    var h := TellsPlace(p);
    IdsAtHome(h, whole, k);
    IdsAtHome(h, one, k);
    IdsAtHome(h, two, k);
    assert "1" in SessionIds(h, whole) <==> p in AsSet(Home(whole, k));
    assert "1" in SessionIds(h, one) <==> p in AsSet(Home(one, k));
    assert "1" in SessionIds(h, two) <==> p in AsSet(Home(two, k));
  }

  lemma TellsOne(m: Record, at: Option<(string, string)>, records: seq<Record>)
    ensures "1" in TurnsAt(TellsMessage(m), at, records)
            <==> at.Some? && exists x :: x in records && x.rtype.Message? && x.ts == m.ts
  {
    if at.Some? && exists x :: x in records && x.rtype.Message? && x.ts == m.ts {
      var x :| x in records && x.rtype.Message? && x.ts == m.ts;
      assert TurnIdOf(TellsMessage(m), SessionIdOf(TellsMessage(m), at.value.0, at.value.1), x) == "1";
    }
  }

  lemma MessageLeftOut(k: GroupKey, whole: seq<Record>, one: seq<Record>, two: seq<Record>, m: Record)
    requires Split(k, whole, one, two) && m.rtype.Message? && Home(whole, k).Some?
    requires (m in one && Home(one, k).None?) || (m in two && Home(two, k).None?)
    ensures !SameIds(TellsMessage(m), whole, one, two)
  {
    var h := TellsMessage(m);
    IdsAtHome(h, whole, k);
    IdsAtHome(h, one, k);
    IdsAtHome(h, two, k);
    TellsOne(m, Home(whole, k), whole);
    TellsOne(m, Home(one, k), one);
    TellsOne(m, Home(two, k), two);
    var x := Counterpart(whole, one, two, m);
    assert "1" in TurnIds(h, whole) && "1" !in TurnIds(h, one) + TurnIds(h, two);
  }

  /** The ids are the same for every choice of hashes exactly when the places are the same. */
  lemma SameIdsIff(k: GroupKey, whole: seq<Record>, one: seq<Record>, two: seq<Record>)
    requires Split(k, whole, one, two)
    ensures (forall h :: SameIds(h, whole, one, two)) <==> SameHomes(k, whole, one, two)
  {
    if SameHomes(k, whole, one, two) {
      forall h ensures SameIds(h, whole, one, two) { SameHomesSameIds(h, k, whole, one, two); }
    } else {
      var h := DifferentHomes(k, whole, one, two);
    }
  }

  lemma DifferentHomes(k: GroupKey, whole: seq<Record>, one: seq<Record>, two: seq<Record>) returns (h: StableId)
    requires Split(k, whole, one, two) && !SameHomes(k, whole, one, two)
    ensures !SameIds(h, whole, one, two)
  {
    var at, at1, at2 := AsSet(Home(whole, k)), AsSet(Home(one, k)), AsSet(Home(two, k));
    if p :| p in at && p !in at1 + at2 {
      PlacesDiffer(k, whole, one, two, p);
      h := TellsPlace(p);
    } else if p :| p !in at && p in at1 + at2 {
      PlacesDiffer(k, whole, one, two, p);
      h := TellsPlace(p);
    } else {
      assert at == at1 + at2;
      assert forall p :: p in at1 ==> p in at;
      assert forall p :: p in at2 ==> p in at;
      var m: Record;
      if HasMessage(one) && Home(one, k) != Home(whole, k) {
        m :| m in one && m.rtype.Message?;
      } else {
        m :| m in two && m.rtype.Message?;
      }
      MessageLeftOut(k, whole, one, two, m);
      h := TellsMessage(m);
    }
  }

  // ----- the names -----

  lemma {:induction false} AlikeNames(a: seq<Record>, b: seq<Record>, k: GroupKey)
    requires Alike(a, b)
    ensures Naming(a, k) == Naming(b, k)
    decreases |a|
  {
    if a != [] { AlikeNames(a[..|a| - 1], b[..|b| - 1], k); }
  }

  function NextNaming(naming: (string, Option<int>), r: Record): (string, Option<int>) {
    if NamesSession(r) && (naming.1.None? || r.ts < naming.1.value) then (r.nativeId, Some(r.ts)) else naming
  }

  lemma NamingAppend(records: seq<Record>, r: Record, k: GroupKey)
    ensures Naming(records + [r], k) == NextNaming(Naming(records, k), r)
  {
    assert (records + [r])[..|records|] == records;
  }

  lemma NamingStart(records: seq<Record>, k: GroupKey)
    ensures HasStart(records) <==> Naming(records, k).1.Some?
    ensures HasStart(records) ==> exists r :: r in records && Naming(records, k).1 == Some(r.ts)
    ensures !HasStart(records) ==> Naming(records, k) == (k.1, None)
  {
    var i := NativeIdChoice(k, records);
    if HasStart(records) { assert records[i] in records; }
  }

  /** The earlier part names the group if it names anything. */
  lemma {:induction false} NamingOfBoth(one: seq<Record>, two: seq<Record>, k: GroupKey)
    requires Precedes(one, two)
    ensures Naming(one + two, k) == if HasStart(one) then Naming(one, k) else Naming(two, k)
    decreases |two|
  {
    NamingStart(one, k);
    if two == [] {
      assert one + two == one;
    } else {
      var n := |two| - 1;
      assert two[n] in two && two == two[..n] + [two[n]];
      NamingOfBoth(one, two[..n], k);
      NamingAppend(one + two[..n], two[n], k);
      NamingAppend(two[..n], two[n], k);
      assert one + two == one + two[..n] + [two[n]];
    }
  }

  /** When two runs agree with one: in terms of what each part names. */
  ghost predicate PartsAgree(k: GroupKey, whole: seq<Record>, one: seq<Record>, two: seq<Record>) {
    if !HasProject(whole) then !HasProject(one) && !HasProject(two)
    else
      && (HasProject(one) || (HasProject(two) && !HasMessage(one)))
      && (HasProject(two) || !HasMessage(two))
      && (HasProject(one) && !HasStart(one) && HasStart(two) ==> NameOf(two, k) == k.1)
      && (HasProject(two) && HasStart(one) ==> NameOf(two, k) == NameOf(one, k))
  }

  lemma SameHomesIff(k: GroupKey, whole: seq<Record>, one: seq<Record>, two: seq<Record>)
    requires Split(k, whole, one, two)
    ensures SameHomes(k, whole, one, two) <==> PartsAgree(k, whole, one, two)
  {
    AlikeNames(whole, one + two, k);
    NamingOfBoth(one, two, k);
    NamingStart(one, k);
    NamingStart(two, k);
    var at, at1, at2 := Home(whole, k), Home(one, k), Home(two, k);
    if AsSet(at) == AsSet(at1) + AsSet(at2) {
      SameSets(at, at1, at2);
    }
  }

  // ----- one file -----

  /** The lines of a harness whose files are sessions. */
  predicate Transcribes(f: File, lines: seq<Line>) {
    f.sourceId in JSONL_SOURCES && f.path != "" && forall i :: 0 <= i < |lines| ==> !lines[i].Row?
  }

  function KeyOfFile(f: File): GroupKey { (f.sourceId, f.path) }

  lemma {:induction false} YieldsFromLine(f: File, lines: seq<Line>, n: nat, w: Window, r: Record) returns (i: nat)
    requires n <= |lines| && r in Yields(f, lines, n, w)
    ensures i < n && Reads(f, lines, i, w) && r == RecordAt(f, lines, i, w)
  {
    if r in YieldAt(f, lines, n - 1, w) { i := n - 1; } else { i := YieldsFromLine(f, lines, n - 1, w, r); }
  }

  lemma {:induction false} LineIsYielded(f: File, lines: seq<Line>, n: nat, w: Window, i: nat)
    requires i < n <= |lines| && Reads(f, lines, i, w)
    ensures RecordAt(f, lines, i, w) in Yields(f, lines, n, w)
    decreases n
  {
    if i < n - 1 { LineIsYielded(f, lines, n - 1, w, i); }
  }

  lemma KeyOfRecord(f: File, l: Line, c: Carry)
    requires f.sourceId in JSONL_SOURCES && f.path != "" && Yielding(f, l) && !l.Row?
    ensures KeyOf(Emit(f, l, c)) == Some(KeyOfFile(f))
  {}

  lemma ScanIsOneGroup(f: File, lines: seq<Line>, w: Window)
    requires Transcribes(f, lines)
    ensures OneGroup(Scan(f, lines, w), KeyOfFile(f))
  {
    forall r | r in Scan(f, lines, w) ensures KeyOf(r) == Some(KeyOfFile(f)) {
      var i := YieldsFromLine(f, lines, |lines|, w, r);
      KeyOfRecord(f, lines[i], CarryAt(f, lines, i, w));
    }
  }

  lemma {:induction false} ScansAlike(f: File, lines: seq<Line>, n: nat, m: nat, first: Window, second: Window)
    requires n <= m <= |lines| && Resumes(lines, n, first, second) && Transcribes(f, lines)
    ensures Alike(Yields(f, lines, m, first), Yields(f, lines, n, first) + Yields(f, lines, m, second))
    decreases m
  {
    if m == n {
      NothingYet(f, lines, n, n, first, second);
      assert Yields(f, lines, n, first) + [] == Yields(f, lines, n, first);
    } else {
      ScansAlike(f, lines, n, m - 1, first, second);
      var start := Yields(f, lines, n, first);
      var one, two := Yields(f, lines, m - 1, first), Yields(f, lines, m - 1, second);
      var a, b := YieldAt(f, lines, m - 1, first), YieldAt(f, lines, m - 1, second);
      assert start + (two + b) == (start + two) + b;
      assert |a| == |b| && (|a| == 1 ==> SameTurn(a[0], b[0]));
    }
  }

  lemma ScansPrecede(f: File, lines: seq<Line>, n: nat, first: Window, second: Window)
    requires n <= |lines| && Resumes(lines, n, first, second)
    ensures Precedes(Yields(f, lines, n, first), Scan(f, lines, second))
  {
    forall x, y | x in Yields(f, lines, n, first) && y in Scan(f, lines, second) ensures x.ts < y.ts {
      var i := YieldsFromLine(f, lines, n, first, x);
      var j := YieldsFromLine(f, lines, |lines|, second, y);
      assert !InWindow(second, lines[i]);
    }
  }

  lemma ScansSplit(f: File, lines: seq<Line>, n: nat, first: Window, second: Window)
    requires n <= |lines| && Resumes(lines, n, first, second) && Transcribes(f, lines)
    ensures Split(KeyOfFile(f), Scan(f, lines, first), Scan(f, lines[..n], first), Scan(f, lines, second))
  {
    FirstPart(f, lines, n, n, first);
    ScanIsOneGroup(f, lines, first);
    ScanIsOneGroup(f, lines[..n], first);
    ScanIsOneGroup(f, lines, second);
    ScansAlike(f, lines, n, |lines|, first, second);
    ScansPrecede(f, lines, n, first, second);
  }

  /**
   A file scanned and persisted in two runs stores the session and turn ids of
   one run, for every choice of hashes, exactly when both parts name a project
   where they hold messages and agree with the whole on the session's name.
   */
  lemma TwoRunsKeepIdsIff(f: File, lines: seq<Line>, n: nat, first: Window, second: Window)
    requires n <= |lines| && Resumes(lines, n, first, second) && Transcribes(f, lines)
    ensures var whole, one, two := Scan(f, lines, first), Scan(f, lines[..n], first), Scan(f, lines, second);
            (forall h :: SameIds(h, whole, one, two)) <==> PartsAgree(KeyOfFile(f), whole, one, two)
  {
    var whole, one, two := Scan(f, lines, first), Scan(f, lines[..n], first), Scan(f, lines, second);
    ScansSplit(f, lines, n, first, second);
    SameIdsIff(KeyOfFile(f), whole, one, two);
    SameHomesIff(KeyOfFile(f), whole, one, two);
  }

  // ----- what a scan names, in terms of its lines -----

  ghost predicate MessageIn(lines: seq<Line>, w: Window) {
    exists i :: 0 <= i < |lines| && InWindow(w, lines[i]) && IsItem(lines[i]) && lines[i].kind.rtype.Message?
  }

  lemma ScanHasMessageIff(f: File, lines: seq<Line>, w: Window)
    requires Transcribes(f, lines)
    ensures HasMessage(Scan(f, lines, w)) <==> MessageIn(lines, w)
  {
    if HasMessage(Scan(f, lines, w)) {
      var r :| r in Scan(f, lines, w) && r.rtype.Message?;
      var i := YieldsFromLine(f, lines, |lines|, w, r);
    }
    if MessageIn(lines, w) {
      var i :| 0 <= i < |lines| && InWindow(w, lines[i]) && IsItem(lines[i]) && lines[i].kind.rtype.Message?;
      LineIsYielded(f, lines, |lines|, w, i);
    }
  }

  predicate IdHeader(l: Line) { IsHeader(l) && l.id != "" }

  /** Some header of the first `n` lines has an id. */
  ghost predicate IdHeaderIn(lines: seq<Line>, n: nat, w: Window)
    requires n <= |lines|
  {
    exists j :: 0 <= j < n && InWindow(w, lines[j]) && IdHeader(lines[j])
  }

  lemma ScanHasStartIff(f: File, lines: seq<Line>, w: Window)
    requires Transcribes(f, lines)
    ensures HasStart(Scan(f, lines, w)) <==> !f.harness.Claude? && IdHeaderIn(lines, |lines|, w)
  {
    if HasStart(Scan(f, lines, w)) {
      var r :| r in Scan(f, lines, w) && NamesSession(r);
      var i := YieldsFromLine(f, lines, |lines|, w, r);
    }
    if !f.harness.Claude? && IdHeaderIn(lines, |lines|, w) {
      var i :| 0 <= i < |lines| && InWindow(w, lines[i]) && IdHeader(lines[i]);
      LineIsYielded(f, lines, |lines|, w, i);
    }
  }

  predicate NamedHeader(l: Line) { IsHeader(l) && l.cwd.Some? && l.cwd.value != "" }

  /** A header in the window that names a directory. */
  ghost predicate NamedHeaderIn(lines: seq<Line>, w: Window) {
    exists i :: 0 <= i < |lines| && InWindow(w, lines[i]) && NamedHeader(lines[i])
  }

  lemma {:induction false} CodexCarriesNamed(f: File, lines: seq<Line>, i: nat, w: Window)
    requires f.harness.Codex? && i <= |lines| && CarryAt(f, lines, i, w).cwd != ""
    ensures NamedHeaderIn(lines, w)
    decreases i
  {
    if !(InWindow(w, lines[i - 1]) && IsHeader(lines[i - 1])) { CodexCarriesNamed(f, lines, i - 1, w); }
  }

  /** A Codex batch names a project exactly when its window holds a header that does. */
  lemma CodexProjectIff(f: File, lines: seq<Line>, w: Window)
    requires f.harness.Codex? && Transcribes(f, lines)
    ensures HasProject(Scan(f, lines, w)) <==> NamedHeaderIn(lines, w)
  {
    if HasProject(Scan(f, lines, w)) {
      var r :| r in Scan(f, lines, w) && r.projectPath != "";
      var i := YieldsFromLine(f, lines, |lines|, w, r);
      if IsItem(lines[i]) { CodexCarriesNamed(f, lines, i, w); }
    }
    if NamedHeaderIn(lines, w) {
      var i :| 0 <= i < |lines| && InWindow(w, lines[i]) && NamedHeader(lines[i]);
      LineIsYielded(f, lines, |lines|, w, i);
    }
  }

  /** Some line of the window is a header or an item. */
  ghost predicate LineIn(lines: seq<Line>, w: Window) {
    exists i :: 0 <= i < |lines| && InWindow(w, lines[i]) && (IsHeader(lines[i]) || IsItem(lines[i]))
  }

  /**
   An OMP or Pi batch names a project exactly when its window holds a header that
   names a usable directory, or an item before any header while the directory name
   decodes to something, or any line at all while it decodes to something usable.
   */
  lemma OmpProjectIff(f: File, lines: seq<Line>, w: Window)
    requires f.harness.OmpPi? && Transcribes(f, lines)
    ensures HasProject(Scan(f, lines, w))
            <==> || NamingHeaderIn(f, lines, 0, |lines|, w)
                 || (f.dirCwd != "" && ItemFirst(lines, 0, w))
                 || (!UnsafeCwd(f.dirCwd) && LineIn(lines, w))
  {
    if HasProject(Scan(f, lines, w)) {
      var r :| r in Scan(f, lines, w) && r.projectPath != "";
      var i := YieldsFromLine(f, lines, |lines|, w, r);
      CarriedFrom(f, lines, 0, i, w);
    }
    if NamingHeaderIn(f, lines, 0, |lines|, w) {
      var i :| 0 <= i < |lines| && InWindow(w, lines[i]) && IsHeader(lines[i]) && NamesDirectory(f, lines[i]);
      LineIsYielded(f, lines, |lines|, w, i);
    }
    if f.dirCwd != "" && ItemFirst(lines, 0, w) {
      var i :| 0 <= i < |lines| && InWindow(w, lines[i]) && IsItem(lines[i]) && !HeaderIn(lines, 0, i, w);
      CarriedFrom(f, lines, 0, i, w);
      LineIsYielded(f, lines, |lines|, w, i);
    }
    if !UnsafeCwd(f.dirCwd) && LineIn(lines, w) {
      var i :| 0 <= i < |lines| && InWindow(w, lines[i]) && (IsHeader(lines[i]) || IsItem(lines[i]));
      SafeDirectoryStays(f, lines, i, w);
      LineIsYielded(f, lines, |lines|, w, i);
    }
  }

  /** A Claude batch does exactly when one of its items does. */
  lemma ClaudeProjectIff(f: File, lines: seq<Line>, w: Window)
    requires f.harness.Claude? && Transcribes(f, lines)
    ensures HasProject(Scan(f, lines, w))
            <==> exists i :: 0 <= i < |lines| && InWindow(w, lines[i]) && IsItem(lines[i])
                             && PreferCwd(f.strip, lines[i].cwd, f.dirCwd) != ""
  {
    if HasProject(Scan(f, lines, w)) {
      var r :| r in Scan(f, lines, w) && r.projectPath != "";
      var i := YieldsFromLine(f, lines, |lines|, w, r);
    }
    if i :| && 0 <= i < |lines| && InWindow(w, lines[i]) && IsItem(lines[i])
            && PreferCwd(f.strip, lines[i].cwd, f.dirCwd) != ""
    {
      LineIsYielded(f, lines, |lines|, w, i);
    }
  }

  // ----- the session's name, in terms of the lines -----

  /** The earliest header with an id among the first `n` lines of the window; the first one on a tie. */
  ghost predicate NamesFile(lines: seq<Line>, n: nat, w: Window, h: nat)
    requires n <= |lines|
  {
    && h < n && InWindow(w, lines[h]) && IdHeader(lines[h])
    && forall j :: 0 <= j < n && InWindow(w, lines[j]) && IdHeader(lines[j]) ==>
         lines[h].ts < lines[j].ts || (lines[h].ts == lines[j].ts && h <= j)
  }

  lemma RecordNames(f: File, lines: seq<Line>, i: nat, w: Window)
    requires i < |lines| && Transcribes(f, lines) && Reads(f, lines, i, w)
    ensures var r := RecordAt(f, lines, i, w);
            && (NamesSession(r) <==> !f.harness.Claude? && IdHeader(lines[i]))
            && r.nativeId == lines[i].id && r.ts == lines[i].ts
  {}

  /** The naming after one more line: only an earlier header with an id changes it. */
  function NamingAfter(f: File, naming: (string, Option<int>), l: Line, w: Window): (string, Option<int>) {
    if !f.harness.Claude? && InWindow(w, l) && IdHeader(l) && (naming.1.None? || l.ts < naming.1.value) then
      (l.id, Some(l.ts))
    else naming
  }

  lemma NamingLine(f: File, lines: seq<Line>, n: nat, w: Window, k: GroupKey)
    requires n < |lines| && Transcribes(f, lines)
    ensures Naming(Yields(f, lines, n + 1, w), k) == NamingAfter(f, Naming(Yields(f, lines, n, w), k), lines[n], w)
  {
    var before := Yields(f, lines, n, w);
    if Reads(f, lines, n, w) {
      var r := RecordAt(f, lines, n, w);
      RecordNames(f, lines, n, w);
      NamingAppend(before, r, k);
      assert Yields(f, lines, n + 1, w) == before + [r];
    } else {
      assert Yields(f, lines, n + 1, w) == before + [] == before;
    }
  }

  lemma NamesFileNext(lines: seq<Line>, n: nat, w: Window, h: nat)
    requires n < |lines| && (IdHeaderIn(lines, n, w) ==> NamesFile(lines, n, w, h))
    ensures InWindow(w, lines[n]) && IdHeader(lines[n]) && (IdHeaderIn(lines, n, w) ==> lines[n].ts < lines[h].ts) ==>
              NamesFile(lines, n + 1, w, n)
    ensures IdHeaderIn(lines, n, w) && !(InWindow(w, lines[n]) && IdHeader(lines[n]) && lines[n].ts < lines[h].ts) ==>
              NamesFile(lines, n + 1, w, h)
  {}

  /** The first `n` lines name the file by header `h`, or by its path. */
  ghost predicate NamedBy(f: File, lines: seq<Line>, n: nat, w: Window, h: nat, naming: (string, Option<int>))
    requires n <= |lines|
  {
    if !f.harness.Claude? && IdHeaderIn(lines, n, w) then
      NamesFile(lines, n, w, h) && naming == (lines[h].id, Some(lines[h].ts))
    else naming == (f.path, None)
  }

  lemma NamedByNext(f: File, lines: seq<Line>, n: nat, w: Window, h: nat, naming: (string, Option<int>))
    returns (g: nat)
    requires n < |lines| && NamedBy(f, lines, n, w, h, naming)
    ensures NamedBy(f, lines, n + 1, w, g, NamingAfter(f, naming, lines[n], w))
  {
    g := h;
    if !f.harness.Claude? {
      var l := lines[n];
      NamesFileNext(lines, n, w, h);
      if InWindow(w, l) && IdHeader(l) && (naming.1.None? || l.ts < naming.1.value) { g := n; }
    }
  }

  /** The naming folded over the lines themselves. */
  function FileNaming(f: File, lines: seq<Line>, n: nat, w: Window): (string, Option<int>)
    requires n <= |lines|
  {
    if n == 0 then (f.path, None) else NamingAfter(f, FileNaming(f, lines, n - 1, w), lines[n - 1], w)
  }

  lemma NamingOfNothing(f: File, lines: seq<Line>, w: Window)
    ensures Naming(Yields(f, lines, 0, w), KeyOfFile(f)) == FileNaming(f, lines, 0, w)
  {}

  lemma FileNamingNext(f: File, lines: seq<Line>, n: nat, w: Window)
    requires n < |lines|
    ensures FileNaming(f, lines, n + 1, w) == NamingAfter(f, FileNaming(f, lines, n, w), lines[n], w)
  {}

  ghost predicate SameNaming(f: File, lines: seq<Line>, n: nat, w: Window)
    requires n <= |lines|
  {
    Naming(Yields(f, lines, n, w), KeyOfFile(f)) == FileNaming(f, lines, n, w)
  }

  lemma SameNamingNext(f: File, lines: seq<Line>, n: nat, w: Window)
    requires n < |lines| && Transcribes(f, lines) && SameNaming(f, lines, n, w)
    ensures SameNaming(f, lines, n + 1, w)
  {
    NamingLine(f, lines, n, w, KeyOfFile(f));
    FileNamingNext(f, lines, n, w);
  }

  lemma {:induction false} NamingIsFileNaming(f: File, lines: seq<Line>, n: nat, w: Window)
    requires n <= |lines| && Transcribes(f, lines)
    ensures SameNaming(f, lines, n, w)
    decreases n
  {
    if n == 0 {
      NamingOfNothing(f, lines, w);
    } else {
      NamingIsFileNaming(f, lines, n - 1, w);
      SameNamingNext(f, lines, n - 1, w);
    }
  }

  lemma {:induction false} EarliestNames(f: File, lines: seq<Line>, n: nat, w: Window) returns (h: nat)
    requires n <= |lines|
    ensures NamedBy(f, lines, n, w, h, FileNaming(f, lines, n, w))
    decreases n
  {
    h := 0;
    if n > 0 {
      var g := EarliestNames(f, lines, n - 1, w);
      h := NamedByNext(f, lines, n - 1, w, g, FileNaming(f, lines, n - 1, w));
    }
  }

  /** A batch goes by the id of the earliest header of its window that has one, or by the file's path. */
  lemma BatchName(f: File, lines: seq<Line>, w: Window) returns (h: nat)
    requires Transcribes(f, lines)
    ensures NamedBy(f, lines, |lines|, w, h, Naming(Scan(f, lines, w), KeyOfFile(f)))
  {
    h := EarliestNames(f, lines, |lines|, w);
    NamingIsFileNaming(f, lines, |lines|, w);
  }

  // ----- two runs, in terms of the lines -----

  /** Whether a scan's batch names a project, harness by harness. */
  ghost predicate ProjectIn(f: File, lines: seq<Line>, w: Window) {
    match f.harness
    case Codex => NamedHeaderIn(lines, w)
    case OmpPi =>
      || NamingHeaderIn(f, lines, 0, |lines|, w)
      || (f.dirCwd != "" && ItemFirst(lines, 0, w))
      || (!UnsafeCwd(f.dirCwd) && LineIn(lines, w))
    case Claude =>
      exists i :: 0 <= i < |lines| && InWindow(w, lines[i]) && IsItem(lines[i])
                  && PreferCwd(f.strip, lines[i].cwd, f.dirCwd) != ""
  }

  lemma ProjectInIff(f: File, lines: seq<Line>, w: Window)
    requires Transcribes(f, lines)
    ensures HasProject(Scan(f, lines, w)) <==> ProjectIn(f, lines, w)
  {
    match f.harness
    case Codex => CodexProjectIff(f, lines, w);
    case OmpPi => OmpProjectIff(f, lines, w);
    case Claude => ClaudeProjectIff(f, lines, w);
  }

  ghost predicate StartIn(f: File, lines: seq<Line>, w: Window) { !f.harness.Claude? && IdHeaderIn(lines, |lines|, w) }

  /** `PartsAgree`, read off the lines of the two parts. */
  ghost predicate LinesAgree(f: File, lines: seq<Line>, n: nat, first: Window, second: Window)
    requires n <= |lines|
  {
    var part := lines[..n];
    var name1, name2 := FileNaming(f, part, n, first).0, FileNaming(f, lines, |lines|, second).0;
    if !ProjectIn(f, lines, first) then !ProjectIn(f, part, first) && !ProjectIn(f, lines, second)
    else
      && (ProjectIn(f, part, first) || (ProjectIn(f, lines, second) && !MessageIn(part, first)))
      && (ProjectIn(f, lines, second) || !MessageIn(lines, second))
      && (ProjectIn(f, part, first) && !StartIn(f, part, first) && StartIn(f, lines, second) ==> name2 == f.path)
      && (ProjectIn(f, lines, second) && StartIn(f, part, first) ==> name2 == name1)
  }

  /** The condition for a file scanned and persisted in two runs to keep its ids, in terms of its lines alone. */
  lemma TwoRunsByLinesIff(f: File, lines: seq<Line>, n: nat, first: Window, second: Window)
    requires n <= |lines| && Resumes(lines, n, first, second) && Transcribes(f, lines)
    ensures (forall h :: SameIds(h, Scan(f, lines, first), Scan(f, lines[..n], first), Scan(f, lines, second)))
            <==> LinesAgree(f, lines, n, first, second)
  {
    var part := lines[..n];
    assert Transcribes(f, part);
    TwoRunsKeepIdsIff(f, lines, n, first, second);
    ProjectInIff(f, lines, first);
    ProjectInIff(f, part, first);
    ProjectInIff(f, lines, second);
    ScanHasMessageIff(f, part, first);
    ScanHasMessageIff(f, lines, second);
    ScanHasStartIff(f, part, first);
    ScanHasStartIff(f, lines, second);
    NamingIsFileNaming(f, part, n, first);
    NamingIsFileNaming(f, lines, |lines|, second);
  }

  lemma PartHasLine(f: File, lines: seq<Line>, n: nat, first: Window, second: Window)
    requires n <= |lines| && Resumes(lines, n, first, second)
    ensures LineIn(lines, first) <==> LineIn(lines[..n], first) || LineIn(lines, second)
  {
    if LineIn(lines[..n], first) {
      var i :| 0 <= i < n && InWindow(first, lines[..n][i]) && (IsHeader(lines[..n][i]) || IsItem(lines[..n][i]));
      assert lines[i] == lines[..n][i];
    }
    if LineIn(lines, first) && !LineIn(lines, second) {
      var i :| 0 <= i < |lines| && InWindow(first, lines[i]) && (IsHeader(lines[i]) || IsItem(lines[i]));
      assert lines[..n][i] == lines[i];
    }
  }

  lemma UsableDirectoryProject(f: File, lines: seq<Line>, w: Window)
    requires f.harness.OmpPi? && !UnsafeCwd(f.dirCwd)
    ensures ProjectIn(f, lines, w) <==> LineIn(lines, w)
  {}

  /**
   An OMP or Pi file whose directory name decodes to something usable, resumed
   after its headers, keeps its ids exactly when the later part reads nothing, no
   header had an id, or the earliest one's id is the file's own path.
   */
  lemma ResumedOmpKeepsIdsIff(f: File, lines: seq<Line>, n: nat, first: Window, second: Window)
    requires f.harness.OmpPi? && !UnsafeCwd(f.dirCwd) && n <= |lines| && Resumes(lines, n, first, second)
    requires Transcribes(f, lines) && forall i :: 0 <= i < |lines| && InWindow(second, lines[i]) ==> !IsHeader(lines[i])
    ensures (forall h :: SameIds(h, Scan(f, lines, first), Scan(f, lines[..n], first), Scan(f, lines, second)))
            <==> || !LineIn(lines, second)
                 || !IdHeaderIn(lines[..n], n, first)
                 || FileNaming(f, lines[..n], n, first).0 == f.path
  {
    TwoRunsByLinesIff(f, lines, n, first, second);
    PartHasLine(f, lines, n, first, second);
    UsableDirectoryProject(f, lines, first);
    UsableDirectoryProject(f, lines[..n], first);
    UsableDirectoryProject(f, lines, second);
    var h := EarliestNames(f, lines, |lines|, second);
  }

  /**
   A Codex file resumed after its headers keeps its ids exactly when the first
   part named no directory either, so that nothing is stored at all, or the
   second part holds no message.
   */
  lemma ResumedCodexKeepsIdsIff(f: File, lines: seq<Line>, n: nat, first: Window, second: Window)
    requires f.harness.Codex? && n <= |lines| && Resumes(lines, n, first, second) && Transcribes(f, lines)
    requires forall i :: 0 <= i < |lines| && InWindow(second, lines[i]) ==> !IsHeader(lines[i])
    ensures (forall h :: SameIds(h, Scan(f, lines, first), Scan(f, lines[..n], first), Scan(f, lines, second)))
            <==> !NamedHeaderIn(lines, first) || !MessageIn(lines, second)
  {
    TwoRunsKeepIdsIff(f, lines, n, first, second);
    CodexProjectIff(f, lines, first);
    CodexProjectIff(f, lines[..n], first);
    CodexProjectIff(f, lines, second);
    ScanHasMessageIff(f, lines, second);
    ScanHasStartIff(f, lines, second);
    HeadersAreEarly(lines, n, first, second);
  }

  lemma HeadersAreEarly(lines: seq<Line>, n: nat, first: Window, second: Window)
    requires n <= |lines| && Resumes(lines, n, first, second)
    requires forall i :: 0 <= i < |lines| && InWindow(second, lines[i]) ==> !IsHeader(lines[i])
    ensures NamedHeaderIn(lines, first) <==> NamedHeaderIn(lines[..n], first)
  {
    if NamedHeaderIn(lines, first) {
      var i :| 0 <= i < |lines| && InWindow(first, lines[i]) && NamedHeader(lines[i]);
      assert i < n;
      assert lines[..n][i] == lines[i];
    }
    if NamedHeaderIn(lines[..n], first) {
      var i :| 0 <= i < n && InWindow(first, lines[..n][i]) && NamedHeader(lines[..n][i]);
      assert lines[i] == lines[..n][i];
    }
  }
}
