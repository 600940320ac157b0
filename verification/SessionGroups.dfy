/**
 Folding records into session groups.  `SessionGroup` is the accumulator with
 its updating method; `Absorb` is the same step on values, and the lemmas say
 what the fold computes without reference to the order of the records.
 */
module SessionGroups {
  import opened Wrappers
  import opened Records

  datatype Group = Group(
    sourceId: string,
    nativeId: string,
    rawPath: string,
    projectPath: string,
    startedMs: int,
    endedMs: int,
    model: string,
    gitBranch: string,
    turnCount: nat,
    memberNativeIds: set<string>,
    memberRawIds: set<string>,
    fingerprints: set<string>,
    absorbed: nat,
    sessionStartTs: Option<int>)

  function NewGroup(k: GroupKey): Group {
    Group(k.0, k.1, "", "", 0, 0, "", "", 0, {}, {}, {}, 0, None)
  }

  /** Keep whichever session start is earliest. */
  function AbsorbStart(g: Group, r: Record): Group {
    if NamesSession(r) && (g.sessionStartTs.None? || r.ts < g.sessionStartTs.value)
    then g.(nativeId := r.nativeId, sessionStartTs := Some(r.ts)) else g
  }

  /** First non-empty label wins. */
  function AbsorbLabels(g: Group, r: Record): Group {
    g.(projectPath := Or(g.projectPath, r.projectPath), model := Or(g.model, r.model),
       gitBranch := Or(g.gitBranch, r.gitBranch), rawPath := Or(g.rawPath, r.sourceFile))
  }

  function AbsorbSpan(g: Group, r: Record): Group {
    g.(startedMs := if g.absorbed == 0 || r.ts < g.startedMs then r.ts else g.startedMs,
       endedMs := if r.ts > g.endedMs then r.ts else g.endedMs,
       turnCount := if r.rtype.Message? then g.turnCount + 1 else g.turnCount,
       absorbed := g.absorbed + 1)
  }

  function AbsorbIds(g: Group, r: Record): Group {
    g.(memberNativeIds := if r.nativeId != "" then g.memberNativeIds + {r.nativeId} else g.memberNativeIds,
       memberRawIds := g.memberRawIds + r.metaIds,
       fingerprints := if r.fingerprint != "" then g.fingerprints + {r.fingerprint} else g.fingerprints)
  }

  function Absorb(g: Group, r: Record): Group {
    AbsorbIds(AbsorbSpan(AbsorbLabels(AbsorbStart(g, r), r), r), r)
  }

  /** The working accumulator of one session. */
  class SessionGroup {
    var sourceId: string
    var nativeId: string
    var rawPath: string
    var projectPath: string
    var startedMs: int
    var endedMs: int
    var model: string
    var gitBranch: string
    var turnCount: nat
    var memberNativeIds: set<string>
    var memberRawIds: set<string>
    var fingerprints: set<string>
    var absorbed: nat
    var sessionStartTs: Option<int>

    function View(): Group
      reads this
    {
      Group(sourceId, nativeId, rawPath, projectPath, startedMs, endedMs, model, gitBranch, turnCount,
            memberNativeIds, memberRawIds, fingerprints, absorbed, sessionStartTs)
    }

    constructor (k: GroupKey)
      ensures View() == NewGroup(k)
    {
      sourceId, nativeId := k.0, k.1;
      rawPath, projectPath, model, gitBranch := "", "", "", "";
      startedMs, endedMs, turnCount, absorbed := 0, 0, 0, 0;
      memberNativeIds, memberRawIds, fingerprints := {}, {}, {};
      sessionStartTs := None;
    }

    method NoteSessionStart(r: Record)
      modifies this`nativeId, this`sessionStartTs
      ensures View() == AbsorbStart(old(View()), r)
    {
      if NamesSession(r) && (sessionStartTs.None? || r.ts < sessionStartTs.value) {
        nativeId := r.nativeId;
        sessionStartTs := Some(r.ts);
      }
    }

    method NoteLabels(r: Record)
      modifies this`projectPath, this`model, this`gitBranch, this`rawPath
      ensures View() == AbsorbLabels(old(View()), r)
    {
      if projectPath == "" { projectPath := r.projectPath; }
      if model == "" { model := r.model; }
      if gitBranch == "" { gitBranch := r.gitBranch; }
      if rawPath == "" { rawPath := r.sourceFile; }
    }

    method NoteSpan(r: Record)
      modifies this`startedMs, this`endedMs, this`turnCount, this`absorbed
      ensures View() == AbsorbSpan(old(View()), r)
    {
      if absorbed == 0 || r.ts < startedMs { startedMs := r.ts; }
      if r.ts > endedMs { endedMs := r.ts; }
      if r.rtype.Message? { turnCount := turnCount + 1; }
      absorbed := absorbed + 1;
    }

    method NoteIds(r: Record)
      modifies this`memberNativeIds, this`memberRawIds, this`fingerprints
      ensures View() == AbsorbIds(old(View()), r)
    {
      if r.nativeId != "" { memberNativeIds := memberNativeIds + {r.nativeId}; }
      memberRawIds := memberRawIds + r.metaIds;
      if r.fingerprint != "" { fingerprints := fingerprints + {r.fingerprint}; }
    }

    method AbsorbRecord(r: Record)
      modifies this
      ensures View() == Absorb(old(View()), r)
    {
      NoteSessionStart(r);
      NoteLabels(r);
      NoteSpan(r);
      NoteIds(r);
    }
  }

  // ----- the fold, per group -----

  /** The records of one group, in stream order. */
  function Members(records: seq<Record>, k: GroupKey): (ms: seq<Record>)
  {
    if records == [] then []
    else
      var rest := Members(records[..|records| - 1], k);
      if KeyOf(records[|records| - 1]) == Some(k) then rest + [records[|records| - 1]] else rest
  }

  function AbsorbAll(g: Group, ms: seq<Record>): Group {
    if ms == [] then g else Absorb(AbsorbAll(g, ms[..|ms| - 1]), ms[|ms| - 1])
  }

  function GroupOf(records: seq<Record>, k: GroupKey): Group {
    AbsorbAll(NewGroup(k), Members(records, k))
  }

  function KeysOf(records: seq<Record>): set<GroupKey> {
    set r | r in records && KeyOf(r).Some? :: KeyOf(r).value
  }

  lemma {:induction false} MembersAppend(records: seq<Record>, r: Record, k: GroupKey)
    ensures Members(records + [r], k) == if KeyOf(r) == Some(k) then Members(records, k) + [r] else Members(records, k)
    ensures GroupOf(records + [r], k)
            == if KeyOf(r) == Some(k) then Absorb(GroupOf(records, k), r) else GroupOf(records, k)
  {
    assert (records + [r])[..|records|] == records;
    var ms := Members(records, k);
    assert (ms + [r])[..|ms|] == ms;
  }

  /** Grouping neither loses nor invents records. */
  lemma {:induction false} MembersMultiset(records: seq<Record>, k: GroupKey, r: Record)
    ensures multiset(Members(records, k))[r] == if KeyOf(r) == Some(k) then multiset(records)[r] else 0
  {
    if records != [] {
      var n := |records| - 1;
      MembersMultiset(records[..n], k, r);
      assert records == records[..n] + [records[n]];
    }
  }

  lemma MembersExactly(records: seq<Record>, k: GroupKey, r: Record)
    ensures r in Members(records, k) <==> r in records && KeyOf(r) == Some(k)
  {
    MembersMultiset(records, k, r);
    assert r in Members(records, k) <==> r in multiset(Members(records, k));
    assert r in records <==> r in multiset(records);
  }

  function Messages(ms: seq<Record>): seq<Record> {
    if ms == [] then []
    else Messages(ms[..|ms| - 1]) + if ms[|ms| - 1].rtype.Message? then [ms[|ms| - 1]] else []
  }

  /** `g` spans exactly its members; the end starts from zero, so it is never negative. */
  ghost predicate SpansMembers(g: Group, ms: seq<Record>) {
    && (exists m :: m in ms && m.ts == g.startedMs)
    && (forall m :: m in ms ==> g.startedMs <= m.ts <= g.endedMs)
    && 0 <= g.endedMs
    && (g.endedMs == 0 || exists m :: m in ms && m.ts == g.endedMs)
  }

  /** Counts, ids and fingerprints of `g` in order-free terms. */
  ghost predicate CollectsMembers(g: Group, ms: seq<Record>) {
    && g.turnCount == |Messages(ms)|
    && g.absorbed == |ms|
    && (forall id :: id in g.memberNativeIds <==> id != "" && exists m :: m in ms && m.nativeId == id)
    && (forall id :: id in g.memberRawIds <==> exists m :: m in ms && id in m.metaIds)
    && (forall fp :: fp in g.fingerprints <==> fp != "" && exists m :: m in ms && m.fingerprint == fp)
    && (g.projectPath == "" <==> forall m :: m in ms ==> m.projectPath == "")
  }

  lemma SpanStep(g: Group, ms: seq<Record>, r: Record)
    requires ms == [] ==> g.absorbed == 0 && g.endedMs == 0
    requires ms != [] ==> g.absorbed > 0 && SpansMembers(g, ms)
    ensures SpansMembers(Absorb(g, r), ms + [r])
  {
    var all := ms + [r];
    assert r in all;
    forall m | m in ms ensures m in all {}
    if ms != [] {
      var m :| m in ms && m.ts == g.startedMs;
      if g.endedMs != 0 { var e :| e in ms && e.ts == g.endedMs; assert e in all; }
    }
  }

  lemma CollectStep(g: Group, ms: seq<Record>, r: Record)
    requires CollectsMembers(g, ms)
    ensures CollectsMembers(Absorb(g, r), ms + [r])
  {
    var all, g' := ms + [r], Absorb(g, r);
    assert all[..|ms|] == ms;
    assert forall m :: m in all <==> m in ms || m == r;
  }

  lemma {:induction false} GroupSummarises(k: GroupKey, ms: seq<Record>)
    ensures CollectsMembers(AbsorbAll(NewGroup(k), ms), ms)
    ensures ms == [] ==> AbsorbAll(NewGroup(k), ms) == NewGroup(k)
    ensures ms != [] ==> SpansMembers(AbsorbAll(NewGroup(k), ms), ms)
    decreases |ms|
  {
    if ms != [] {
      var n := |ms| - 1;
      GroupSummarises(k, ms[..n]);
      assert ms == ms[..n] + [ms[n]];
      SpanStep(AbsorbAll(NewGroup(k), ms[..n]), ms[..n], ms[n]);
      CollectStep(AbsorbAll(NewGroup(k), ms[..n]), ms[..n], ms[n]);
    }
  }
}
