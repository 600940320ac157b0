/**
 Scanning transcript files line by line.  Codex and OMP/Pi carry facts from a
 header line forward to the lines after it; Claude lines carry their own.  The
 time window is applied before the header is looked at, so a later window can
 miss the header.
 */
module ConnectorScan {
  import opened Wrappers
  import opened Records
  import opened SessionGroups
  import opened PathDecode
  import opened Persist
  import opened Batches
  import GroupingLaws
  import Sequences

  datatype Harness = Codex | OmpPi | Claude

  type ItemType = t: RecordType | t.Message? || t.ToolCall? || t.Error? witness Message

  datatype LineKind = Header | Item(rtype: ItemType) | Other

  /** One parsed line of a transcript, or one row of a database source, which is a record already. */
  datatype Line =
    | Malformed
    | Row(record: Record)
    | Line(ts: int, kind: LineKind, id: string, cwd: Option<string>, model: string, branch: string,
           role: string, toolName: string, fingerprint: string, redacted: string)

  /** What the file-level loop carries from line to line. */
  datatype Carry = Carry(cwd: string, model: string)

  /** One file: its harness, path, and the directory its name decodes to. */
  datatype File = File(harness: Harness, sourceId: string, path: string, dirCwd: string, strip: string -> string)

  datatype Window = Window(floor: int, cutoff: int)

  function TimeOf(l: Line): int
    requires !l.Malformed?
  {
    if l.Row? then l.record.ts else l.ts
  }

  predicate InWindow(w: Window, l: Line) { !l.Malformed? && TimeOf(l) > w.floor && TimeOf(l) >= w.cutoff }

  predicate IsHeader(l: Line) { l.Line? && l.kind.Header? }

  predicate IsItem(l: Line) { l.Line? && l.kind.Item? }

  /** The lines a scan makes records of. */
  predicate Yielding(f: File, l: Line) { l.Row? || IsItem(l) || (IsHeader(l) && !f.harness.Claude?) }

  function Start(f: File): Carry { Carry(if f.harness.Codex? then "" else f.dirCwd, "") }

  /** The carried facts after a line inside the window. */
  function Next(f: File, l: Line, c: Carry): Carry {
    if !IsHeader(l) then c
    else
      match f.harness
      case Codex => Carry(if l.cwd.Some? then l.cwd.value else "", c.model)
      case OmpPi => Carry(PreferCwd(f.strip, l.cwd, c.cwd), l.model)
      case Claude => c
  }

  function Make(f: File, l: Line, rtype: RecordType, project: string, branch: string, model: string): Record
    requires l.Line?
  {
    Record(f.sourceId, l.id, l.ts, rtype, l.role, project, branch, model,
           l.fingerprint, l.redacted, l.toolName, {}, None, f.path)
  }

  /** The record a line yields, given what is carried. */
  function Emit(f: File, l: Line, c: Carry): Record
    requires Yielding(f, l)
  {
    if l.Row? then l.record
    else if IsHeader(l) then Make(f, l, SessionStart, Next(f, l, c).cwd, "", l.model)
    else
      match f.harness
      case Codex => Make(f, l, l.kind.rtype, c.cwd, "", "")
      case OmpPi => Make(f, l, l.kind.rtype, c.cwd, "", c.model)
      case Claude => Make(f, l, l.kind.rtype, PreferCwd(f.strip, l.cwd, f.dirCwd), l.branch, l.model)
  }

  /** What is carried after the first `n` lines. */
  function CarryAt(f: File, lines: seq<Line>, n: nat, w: Window): Carry
    requires n <= |lines|
  {
    if n == 0 then Start(f)
    else
      var c := CarryAt(f, lines, n - 1, w);
      if InWindow(w, lines[n - 1]) then Next(f, lines[n - 1], c) else c
  }

  /** Line `i` is read: inside the window, and a line that yields. */
  predicate Reads(f: File, lines: seq<Line>, i: nat, w: Window)
    requires i < |lines|
  {
    InWindow(w, lines[i]) && Yielding(f, lines[i])
  }

  function RecordAt(f: File, lines: seq<Line>, i: nat, w: Window): Record
    requires i < |lines| && Reads(f, lines, i, w)
  {
    Emit(f, lines[i], CarryAt(f, lines, i, w))
  }

  function YieldAt(f: File, lines: seq<Line>, i: nat, w: Window): seq<Record>
    requires i < |lines|
  {
    if Reads(f, lines, i, w) then [RecordAt(f, lines, i, w)] else []
  }

  function Yields(f: File, lines: seq<Line>, n: nat, w: Window): seq<Record>
    requires n <= |lines|
  {
    if n == 0 then [] else Yields(f, lines, n - 1, w) + YieldAt(f, lines, n - 1, w)
  }

  function Scan(f: File, lines: seq<Line>, w: Window): seq<Record> { Yields(f, lines, |lines|, w) }

  /** The loop over one file. */
  method ScanFile(f: File, lines: seq<Line>, w: Window) returns (records: seq<Record>, malformed: nat)
    ensures records == Scan(f, lines, w)
  {
    records, malformed := [], 0;
    var carry := Start(f);
    for i := 0 to |lines|
      invariant carry == CarryAt(f, lines, i, w) && records == Yields(f, lines, i, w)
    {
      var l := lines[i];
      if l.Malformed? {
        malformed := malformed + 1;
      } else if InWindow(w, l) {
        if Yielding(f, l) { records := records + [Emit(f, l, carry)]; }
        carry := Next(f, l, carry);
      }
    }
  }

  // ----- scanning in two goes -----

  /**
   The second scan picks up where the first stopped: its window holds exactly the
   first window's lines from `n` on.
   */
  ghost predicate Resumes(lines: seq<Line>, n: nat, first: Window, second: Window)
    requires n <= |lines|
  {
    forall i :: 0 <= i < |lines| ==> (InWindow(second, lines[i]) <==> i >= n && InWindow(first, lines[i]))
  }

  lemma {:induction false} NothingYet(f: File, lines: seq<Line>, n: nat, i: nat, first: Window, second: Window)
    requires i <= n <= |lines| && Resumes(lines, n, first, second)
    ensures Yields(f, lines, i, second) == [] && CarryAt(f, lines, i, second) == Start(f)
    decreases i
  {
    if i > 0 { NothingYet(f, lines, n, i - 1, first, second); }
  }

  /** Every line of the second scan yields what the one scan would. */
  ghost predicate SameYields(f: File, lines: seq<Line>, n: nat, m: nat, first: Window, second: Window)
    requires m <= |lines|
  {
    forall i :: n <= i < m ==> YieldAt(f, lines, i, second) == YieldAt(f, lines, i, first)
  }

  lemma AppendIff(xs: seq<Record>, ys: seq<Record>, a: seq<Record>, b: seq<Record>)
    requires |xs| == |ys| && |a| == |b|
    ensures xs + a == ys + b <==> xs == ys && a == b
  {
    if xs + a == ys + b {
      assert xs == (xs + a)[..|xs|] && ys == (ys + b)[..|ys|];
      assert a == (xs + a)[|xs|..] && b == (ys + b)[|ys|..];
    }
  }

  lemma {:induction false} ResumedYields(f: File, lines: seq<Line>, n: nat, m: nat, first: Window, second: Window)
    requires n <= m <= |lines| && Resumes(lines, n, first, second)
    ensures |Yields(f, lines, m, first)| == |Yields(f, lines, n, first)| + |Yields(f, lines, m, second)|
    ensures Yields(f, lines, m, first) == Yields(f, lines, n, first) + Yields(f, lines, m, second)
            <==> SameYields(f, lines, n, m, first, second)
    decreases m
  {
    if m == n {
      NothingYet(f, lines, n, n, first, second);
    } else {
      ResumedYields(f, lines, n, m - 1, first, second);
      var start := Yields(f, lines, n, first);
      var one, two := Yields(f, lines, m - 1, first), Yields(f, lines, m - 1, second);
      var a, b := YieldAt(f, lines, m - 1, first), YieldAt(f, lines, m - 1, second);
      AppendIff(one, start + two, a, b);
      Sequences.Assoc(start, two, b);
    }
  }

  lemma {:induction false} FirstPart(f: File, lines: seq<Line>, n: nat, i: nat, w: Window)
    requires i <= n <= |lines|
    ensures Yields(f, lines, i, w) == Yields(f, lines[..n], i, w)
    ensures CarryAt(f, lines, i, w) == CarryAt(f, lines[..n], i, w)
    decreases i
  {
    if i > 0 { FirstPart(f, lines, n, i - 1, w); }
  }

  lemma SplitScan(f: File, lines: seq<Line>, n: nat, first: Window, second: Window)
    requires n <= |lines| && Resumes(lines, n, first, second)
    ensures Scan(f, lines, first) == Scan(f, lines[..n], first) + Scan(f, lines, second)
            <==> SameYields(f, lines, n, |lines|, first, second)
  {
    ResumedYields(f, lines, n, |lines|, first, second);
    FirstPart(f, lines, n, n, first);
  }

  // ----- what the second scan has forgotten -----

  /** A header among the lines from `n` to `i` that the window lets through. */
  ghost predicate HeaderIn(lines: seq<Line>, n: nat, i: nat, w: Window)
    requires i <= |lines|
  {
    exists j :: n <= j < i && InWindow(w, lines[j]) && IsHeader(lines[j])
  }

  /**
   The header names the directory by itself; an OMP or Pi header without a safe
   one inherits the carried directory.
   */
  predicate NamesDirectory(f: File, l: Line)
    requires IsHeader(l)
  {
    f.harness.OmpPi? ==> l.cwd.Some? && f.strip(l.cwd.value) != "" && !UnsafeCwd(f.strip(l.cwd.value))
  }

  ghost predicate NamingHeaderIn(f: File, lines: seq<Line>, n: nat, i: nat, w: Window)
    requires i <= |lines|
  {
    exists j :: n <= j < i && InWindow(w, lines[j]) && IsHeader(lines[j]) && NamesDirectory(f, lines[j])
  }

  /** What a header that names no directory makes of the carried one. */
  function Inherited(cwd: string): string { if UnsafeCwd(cwd) then "" else cwd }

  lemma {:induction false} CodexCarriesNoModel(f: File, lines: seq<Line>, i: nat, w: Window)
    requires f.harness.Codex? && i <= |lines|
    ensures CarryAt(f, lines, i, w).model == ""
    decreases i
  {
    if i > 0 { CodexCarriesNoModel(f, lines, i - 1, w); }
  }

  lemma {:induction false} ClaudeCarriesNothing(f: File, lines: seq<Line>, i: nat, w: Window)
    requires f.harness.Claude? && i <= |lines|
    ensures CarryAt(f, lines, i, w) == Start(f)
    decreases i
  {
    if i > 0 { ClaudeCarriesNothing(f, lines, i - 1, w); }
  }

  lemma {:induction false} SafeDirectoryStays(f: File, lines: seq<Line>, n: nat, w: Window)
    requires f.harness.OmpPi? && !UnsafeCwd(f.dirCwd) && n <= |lines|
    ensures !UnsafeCwd(CarryAt(f, lines, n, w).cwd)
    decreases n
  {
    if n > 0 { SafeDirectoryStays(f, lines, n - 1, w); }
  }

  /** What either scan carries at line `i`, in terms of what the one scan carried at `n`. */
  ghost predicate Carried(f: File, lines: seq<Line>, n: nat, i: nat, w: Window, at: Carry, now: Carry)
    requires i <= |lines|
  {
    && (!HeaderIn(lines, n, i, w) ==> now == at)
    && (f.harness.OmpPi? && HeaderIn(lines, n, i, w) && !NamingHeaderIn(f, lines, n, i, w) ==>
        now.cwd == Inherited(at.cwd))
  }

  lemma {:induction false} CarriedFrom(f: File, lines: seq<Line>, n: nat, i: nat, w: Window)
    requires n <= i <= |lines|
    ensures Carried(f, lines, n, i, w, CarryAt(f, lines, n, w), CarryAt(f, lines, i, w))
    decreases i
  {
    if i > n {
      CarriedFrom(f, lines, n, i - 1, w);
      HeaderInNext(f, lines, n, i - 1, w);
    }
  }

  lemma HeaderInNext(f: File, lines: seq<Line>, n: nat, i: nat, w: Window)
    requires n <= i < |lines|
    ensures HeaderIn(lines, n, i + 1, w) <==> HeaderIn(lines, n, i, w) || (InWindow(w, lines[i]) && IsHeader(lines[i]))
    ensures NamingHeaderIn(f, lines, n, i + 1, w) <==>
              || NamingHeaderIn(f, lines, n, i, w)
              || (InWindow(w, lines[i]) && IsHeader(lines[i]) && NamesDirectory(f, lines[i]))
  {}

  /** Past a header both scans carry the same model, and past one that names its directory the same directory. */
  lemma {:induction false} CarriesMeet(f: File, lines: seq<Line>, n: nat, i: nat, first: Window, second: Window)
    requires n <= i <= |lines| && Resumes(lines, n, first, second) && !f.harness.Claude?
    ensures var c, d := CarryAt(f, lines, i, first), CarryAt(f, lines, i, second);
            && (HeaderIn(lines, n, i, second) ==> c.model == d.model)
            && (NamingHeaderIn(f, lines, n, i, second) ==> c == d)
    decreases i
  {
    if f.harness.Codex? {
      CodexCarriesNoModel(f, lines, i, first);
      CodexCarriesNoModel(f, lines, i, second);
    }
    if i > n {
      CarriesMeet(f, lines, n, i - 1, first, second);
      HeaderInNext(f, lines, n, i - 1, second);
    }
  }

  lemma SameHeaders(f: File, lines: seq<Line>, n: nat, i: nat, first: Window, second: Window)
    requires n <= i <= |lines| && Resumes(lines, n, first, second)
    ensures HeaderIn(lines, n, i, first) <==> HeaderIn(lines, n, i, second)
    ensures NamingHeaderIn(f, lines, n, i, first) <==> NamingHeaderIn(f, lines, n, i, second)
  {}

  /** Some item is read by the second scan before it has read a header. */
  ghost predicate ItemFirst(lines: seq<Line>, n: nat, w: Window)
    requires n <= |lines|
  {
    exists i :: n <= i < |lines| && InWindow(w, lines[i]) && IsItem(lines[i]) && !HeaderIn(lines, n, i, w)
  }

  /** The first header the second scan reads does not name its directory. */
  ghost predicate BareHeaderFirst(f: File, lines: seq<Line>, n: nat, w: Window)
    requires n <= |lines|
  {
    exists h :: n <= h < |lines| && InWindow(w, lines[h]) && IsHeader(lines[h]) && !NamesDirectory(f, lines[h])
                && !HeaderIn(lines, n, h, w)
  }

  /** What a second scan needs to have kept, in terms of the lines it reads and of what the first one carried. */
  ghost predicate NothingForgotten(f: File, lines: seq<Line>, n: nat, first: Window, second: Window)
    requires n <= |lines|
  {
    var carried := CarryAt(f, lines, n, first);
    && (ItemFirst(lines, n, second) ==> carried == Start(f))
    && (f.harness.OmpPi? && BareHeaderFirst(f, lines, n, second) ==> Inherited(carried.cwd) == Inherited(f.dirCwd))
  }

  /** Line by line: what has to agree for one line to yield the same. */
  lemma LineAgrees(f: File, lines: seq<Line>, n: nat, i: nat, first: Window, second: Window)
    requires n <= i < |lines| && Resumes(lines, n, first, second) && NothingForgotten(f, lines, n, first, second)
    ensures YieldAt(f, lines, i, second) == YieldAt(f, lines, i, first)
  {
    if Reads(f, lines, i, second) && lines[i].Line? && !f.harness.Claude? {
      CarryFacts(f, lines, n, i, first, second);
      if HeaderIn(lines, n, i, second) && !NamingHeaderIn(f, lines, n, i, second) && f.harness.OmpPi? {
        FirstHeaderIn(f, lines, n, i, second);
      }
    }
  }

  lemma CarryFacts(f: File, lines: seq<Line>, n: nat, i: nat, first: Window, second: Window)
    requires n <= i <= |lines| && Resumes(lines, n, first, second) && !f.harness.Claude?
    ensures var c, d := CarryAt(f, lines, i, first), CarryAt(f, lines, i, second);
            && Carried(f, lines, n, i, second, CarryAt(f, lines, n, first), c)
            && Carried(f, lines, n, i, second, Start(f), d)
            && (HeaderIn(lines, n, i, second) ==> c.model == d.model)
            && (NamingHeaderIn(f, lines, n, i, second) ==> c == d)
  {
    NothingYet(f, lines, n, n, first, second);
    CarriedFrom(f, lines, n, i, first);
    CarriedFrom(f, lines, n, i, second);
    SameHeaders(f, lines, n, i, first, second);
    CarriesMeet(f, lines, n, i, first, second);
  }

  /** Where headers occur but none names its directory, the first one is bare. */
  lemma {:induction false} FirstHeaderIn(f: File, lines: seq<Line>, n: nat, i: nat, w: Window)
    requires n <= i <= |lines| && HeaderIn(lines, n, i, w) && !NamingHeaderIn(f, lines, n, i, w)
    ensures BareHeaderFirst(f, lines, n, w)
    decreases i
  {
    var j :| n <= j < i && InWindow(w, lines[j]) && IsHeader(lines[j]);
    if HeaderIn(lines, n, j, w) { FirstHeaderIn(f, lines, n, j, w); }
  }

  /**
   Scanning a growing file in two goes yields what one scan would exactly when
   the second scan misses nothing carried: either no item comes before its first
   header or the first scan had carried only what a scan starts with; and for
   OMP and Pi a first header without a directory of its own inherits alike.
   */
  lemma ResumedScanIff(f: File, lines: seq<Line>, n: nat, first: Window, second: Window)
    requires n <= |lines| && Resumes(lines, n, first, second)
    ensures Scan(f, lines, first) == Scan(f, lines[..n], first) + Scan(f, lines, second)
            <==> NothingForgotten(f, lines, n, first, second)
  {
    SplitScan(f, lines, n, first, second);
    if NothingForgotten(f, lines, n, first, second) {
      forall i | n <= i < |lines| ensures YieldAt(f, lines, i, second) == YieldAt(f, lines, i, first) {
        LineAgrees(f, lines, n, i, first, second);
      }
    }
    if SameYields(f, lines, n, |lines|, first, second) {
      SameYieldsForgetNothing(f, lines, n, first, second);
    }
  }

  lemma SameYieldsForgetNothing(f: File, lines: seq<Line>, n: nat, first: Window, second: Window)
    requires n <= |lines| && Resumes(lines, n, first, second) && SameYields(f, lines, n, |lines|, first, second)
    ensures NothingForgotten(f, lines, n, first, second)
  {
    if f.harness.Claude? {
      ClaudeCarriesNothing(f, lines, n, first);
    } else {
      if i :| n <= i < |lines| && InWindow(second, lines[i]) && IsItem(lines[i]) && !HeaderIn(lines, n, i, second) {
        CarryFacts(f, lines, n, i, first, second);
        assert YieldAt(f, lines, i, second) == YieldAt(f, lines, i, first);
        if f.harness.Codex? { CodexCarriesNoModel(f, lines, n, first); }
      }
      if h :| && n <= h < |lines| && InWindow(second, lines[h]) && IsHeader(lines[h]) && !NamesDirectory(f, lines[h])
              && !HeaderIn(lines, n, h, second)
      {
        CarryFacts(f, lines, n, h, first, second);
        assert YieldAt(f, lines, h, second) == YieldAt(f, lines, h, first);
      }
    }
  }

  /** Lines that carry their own facts can be split anywhere. */
  lemma ClaudeScansSplit(f: File, lines: seq<Line>, n: nat, first: Window, second: Window)
    requires f.harness.Claude? && n <= |lines| && Resumes(lines, n, first, second)
    ensures Scan(f, lines, first) == Scan(f, lines[..n], first) + Scan(f, lines, second)
  {
    ClaudeCarriesNothing(f, lines, n, first);
    ResumedScanIff(f, lines, n, first, second);
  }

  /** For Codex: the first scan carried no directory, or every item it left over comes after a header of its own run. */
  lemma CodexResumesIff(f: File, lines: seq<Line>, n: nat, first: Window, second: Window)
    requires f.harness.Codex? && n <= |lines| && Resumes(lines, n, first, second)
    ensures Scan(f, lines, first) == Scan(f, lines[..n], first) + Scan(f, lines, second)
            <==> || CarryAt(f, lines, n, first).cwd == ""
                 || forall i :: n <= i < |lines| && InWindow(second, lines[i]) && IsItem(lines[i]) ==>
                      HeaderIn(lines, n, i, second)
  {
    ResumedScanIff(f, lines, n, first, second);
    CodexCarriesNoModel(f, lines, n, first);
  }

  // ----- what the split costs -----

  /** A header that names session and directory, then one message. */
  function Transcript(id: string, cwd: string): seq<Line> {
    [Line(1, Header, id, Some(cwd), "", "", "", "", "", ""),
     Line(2, Item(Message), "m", None, "", "", "user", "", "", "")]
  }

  /** A header and a message of one group are stored under the header's id. */
  lemma HeaderNamesBoth(header: Record, message: Record, k: GroupKey)
    requires KeyOf(header) == Some(k) && KeyOf(message) == Some(k)
    requires NamesSession(header) && header.projectPath != "" && !NamesSession(message)
    ensures StoredAs([header, message], message) == Some((k.0, header.nativeId))
  {
    var both := [header, message];
    MembersOfTwo(header, message, k);
    var i := GroupingLaws.NativeIdChoice(k, both);
    assert header in both && both[0] == header;
    GroupKeepsSource(k, both);
    GroupSummarises(k, both);
  }

  /** What the two scans of a transcript yield. */
  lemma TranscriptScans(f: File, id: string, cwd: string)
    requires f.harness.Codex?
    ensures var lines := Transcript(id, cwd);
            && Scan(f, lines, Window(0, 0))
                == [Make(f, lines[0], SessionStart, cwd, "", ""), Make(f, lines[1], Message, cwd, "", "")]
            && Scan(f, lines, Window(1, 0)) == [Make(f, lines[1], Message, "", "", "")]
  {
    var lines := Transcript(id, cwd);
    TwoYields(f, lines, Window(0, 0));
    TwoYields(f, lines, Window(1, 0));
  }

  lemma CodexKey(f: File, l: Line, t: RecordType, project: string)
    requires f.sourceId == "codex" && f.path != "" && l.Line? && (t.SessionStart? || t.Message?)
    ensures KeyOf(Make(f, l, t, project, "", "")) == Some(("codex", f.path))
  {}

  /**
   The header scanned in one run and the message in the next: the message comes
   back without a project and, persisted in its own batch, is not stored, though
   one batch would store it under the header's session.
   */
  lemma SplitCodexDropsTheTurn(f: File, id: string, cwd: string)
    requires f.harness.Codex? && f.sourceId == "codex" && f.path != "" && id != "" && cwd != ""
    ensures var lines := Transcript(id, cwd);
            var whole := Scan(f, lines, Window(0, 0));
            var later := Scan(f, lines, Window(1, 0));
            && |whole| == 2 && |later| == 1 && whole[1].rtype.Message? && later[0].rtype.Message?
            && StoredAs(whole, whole[1]) == Some(("codex", id))
            && StoredAs(later, later[0]) == None
  {
    var lines := Transcript(id, cwd);
    TranscriptScans(f, id, cwd);
    CodexKey(f, lines[0], SessionStart, cwd);
    CodexKey(f, lines[1], Message, cwd);
    CodexKey(f, lines[1], Message, "");
    HeaderNamesBoth(Make(f, lines[0], SessionStart, cwd, "", ""), Make(f, lines[1], Message, cwd, "", ""),
                    ("codex", f.path));
    AloneIsOwn(Make(f, lines[1], Message, "", "", ""), ("codex", f.path));
  }

  lemma TwoYields(f: File, lines: seq<Line>, w: Window)
    requires |lines| == 2
    ensures CarryAt(f, lines, 1, w) == if InWindow(w, lines[0]) then Next(f, lines[0], Start(f)) else Start(f)
    ensures Scan(f, lines, w) == YieldAt(f, lines, 0, w) + YieldAt(f, lines, 1, w)
  {
    assert Yields(f, lines, 0, w) == [] && CarryAt(f, lines, 0, w) == Start(f);
    assert Yields(f, lines, 1, w) == YieldAt(f, lines, 0, w);
  }

  lemma MembersOfTwo(a: Record, b: Record, k: GroupKey)
    requires KeyOf(a) == Some(k) && KeyOf(b) == Some(k)
    ensures Members([a, b], k) == [a, b]
  {
    assert [a, b][..1] == [a] && [a][..0] == [];
    assert Members([a], k) == [a];
  }
}
