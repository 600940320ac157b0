/**
 Writing correlated sessions and turns to the canonical tables.  Ids are
 content derived, so re-persisting a record finds its own row.
 */
module Persist {
  import opened Wrappers
  import opened Records
  import opened SessionGroups
  import opened RouterMatch
  import opened Correlate
  import Sequences
  import Text

  /** The content-derived ids: one hash per table over that table's identifying columns. */
  datatype StableId = StableId(
    project: string -> string,
    session: (string, string) -> string,
    turn: (string, int, string, string, string) -> string)

  function ProjectIdOf(h: StableId, path: string): string { h.project(path) }

  function SessionIdOf(h: StableId, sourceId: string, nativeId: string): string { h.session(sourceId, nativeId) }

  function TurnIdOf(h: StableId, sid: string, r: Record): string {
    h.turn(sid, r.ts, r.role, r.toolName, r.redactedFingerprint)
  }

  /** The (source, native id) a record is stored under when its batch is persisted; None when it is skipped. */
  function StoredAs(records: seq<Record>, r: Record): Option<(string, string)> {
    if KeyOf(r).None? then None
    else
      var g := GroupOf(records, KeyOf(r).value);
      if g.projectPath == "" then None else Some((g.sourceId, g.nativeId))
  }

  ghost function SessionIds(h: StableId, records: seq<Record>): set<string> {
    set r | r in records && StoredAs(records, r).Some? ::
      SessionIdOf(h, StoredAs(records, r).value.0, StoredAs(records, r).value.1)
  }

  /** The turn id of a message record, when it is stored. */
  function TurnId(h: StableId, records: seq<Record>, r: Record): Option<string> {
    var at := StoredAs(records, r);
    if r.rtype.Message? && at.Some? then Some(TurnIdOf(h, SessionIdOf(h, at.value.0, at.value.1), r)) else None
  }

  ghost function TurnIds(h: StableId, records: seq<Record>): set<string> {
    set r | r in records && TurnId(h, records, r).Some? :: TurnId(h, records, r).value
  }

  /** The project ids a batch's groups name. */
  ghost function ProjectIds(h: StableId, records: seq<Record>): set<string> {
    IdsOfPaths(h, ProjectPaths(GroupMap(records)))
  }

  function IdsOfPaths(h: StableId, paths: set<string>): set<string> { set p | p in paths :: ProjectIdOf(h, p) }

  /** The paths the first `n` sessions name. */
  function BucketPaths(buckets: seq<SessionBucket>, n: nat): set<string>
    requires n <= |buckets|
  {
    set j | 0 <= j < n && buckets[j].group.projectPath != "" :: buckets[j].group.projectPath
  }

  function PathOf(path: string): set<string> { if path != "" then {path} else {} }

  function PathId(h: StableId, path: string): set<string> { if path != "" then {ProjectIdOf(h, path)} else {} }

  lemma BucketPathsNext(h: StableId, buckets: seq<SessionBucket>, n: nat)
    requires n < |buckets|
    ensures BucketPaths(buckets, n + 1) == BucketPaths(buckets, n) + PathOf(buckets[n].group.projectPath)
    ensures IdsOfPaths(h, BucketPaths(buckets, n + 1))
            == IdsOfPaths(h, BucketPaths(buckets, n)) + PathId(h, buckets[n].group.projectPath)
  {}

  lemma AllBucketPaths(groups: Groups, buckets: seq<SessionBucket>)
    requires BucketsOf(groups, buckets)
    ensures BucketPaths(buckets, |buckets|) == ProjectPaths(groups)
  {
    forall p | p in ProjectPaths(groups) ensures p in BucketPaths(buckets, |buckets|) {
      var k :| k in groups && groups[k].projectPath == p && p != "";
      var j :| 0 <= j < |buckets| && buckets[j] == SessionBucket(k, groups[k]);
    }
  }

  lemma DistinctKeys(groups: Groups, buckets: seq<SessionBucket>)
    requires BucketsOf(groups, buckets)
    ensures forall i, j :: 0 <= i < j < |buckets| ==> buckets[i].key != buckets[j].key
  {
    forall i, j | 0 <= i < j < |buckets| ensures buckets[i].key != buckets[j].key {
      Text.PairBeforeTotal(buckets[i].key, buckets[j].key);
    }
  }

  datatype ProjectRow = ProjectRow(path: string, firstMs: int, lastMs: int)
  datatype SessionRow = SessionRow(projectId: string, sourceId: string, nativeId: string, startedMs: int, endedMs: int,
                                   recordCount: nat)
  datatype TurnRow = TurnRow(sessionId: string, sourceId: string, ts: int, role: string, toolName: string,
                             fingerprint: string)

  function TurnRowOf(sid: string, r: Record): TurnRow {
    TurnRow(sid, r.sourceId, r.ts, r.role, r.toolName, r.redactedFingerprint)
  }

  /** The session id each stored group key got, over the first `n` buckets. */
  ghost predicate Mapped(h: StableId, buckets: seq<SessionBucket>, n: nat, gkeyToSid: map<GroupKey, string>)
    requires n <= |buckets|
  {
    && (forall k :: k in gkeyToSid ==>
        exists j :: 0 <= j < n && buckets[j].key == k && buckets[j].group.projectPath != "")
    && (forall j :: 0 <= j < n && buckets[j].group.projectPath != "" ==>
          buckets[j].key in gkeyToSid
          && gkeyToSid[buckets[j].key] == SessionIdOf(h, buckets[j].group.sourceId, buckets[j].group.nativeId))
  }

  function SidOf(h: StableId, g: Group): Option<string> {
    if g.projectPath == "" then None else Some(SessionIdOf(h, g.sourceId, g.nativeId))
  }

  function MapNext(h: StableId, b: SessionBucket, gkeyToSid: map<GroupKey, string>): map<GroupKey, string> {
    match SidOf(h, b.group)
    case None => gkeyToSid
    case Some(sid) => gkeyToSid[b.key := sid]
  }

  lemma FreshKeyValues(m: map<GroupKey, string>, k: GroupKey, v: string, x: string)
    requires k !in m
    ensures x in m[k := v].Values <==> x in m.Values || x == v
  {
    var after := m[k := v];
    if x in m.Values {
      var c :| c in m && m[c] == x;
      assert c in after && after[c] == x;
    } else if x == v {
      assert k in after && after[k] == v;
    }
  }

  lemma FreshKey(m: map<GroupKey, string>, k: GroupKey, v: string)
    requires k !in m
    ensures m[k := v].Values == m.Values + {v}
  {
    forall x ensures x in m[k := v].Values <==> x in m.Values + {v} { FreshKeyValues(m, k, v, x); }
  }

  lemma FreshKeyCount(m: map<GroupKey, string>, k: GroupKey, v: string)
    requires k !in m
    ensures |m[k := v]| == |m| + 1
  {
    assert m[k := v].Keys == m.Keys + {k};
    assert |m[k := v]| == |m[k := v].Keys| && |m| == |m.Keys|;
  }

  lemma UnmappedYet(h: StableId, buckets: seq<SessionBucket>, n: nat, gkeyToSid: map<GroupKey, string>)
    requires n < |buckets| && Mapped(h, buckets, n, gkeyToSid)
    requires forall i, j :: 0 <= i < j < |buckets| ==> buckets[i].key != buckets[j].key
    ensures buckets[n].key !in gkeyToSid
  {}

  lemma MappedStep(h: StableId, buckets: seq<SessionBucket>, n: nat, gkeyToSid: map<GroupKey, string>)
    requires n < |buckets| && Mapped(h, buckets, n, gkeyToSid)
    requires buckets[n].key !in gkeyToSid
    ensures Mapped(h, buckets, n + 1, MapNext(h, buckets[n], gkeyToSid))
  {
    var after := MapNext(h, buckets[n], gkeyToSid);
    forall k | k in after
      ensures exists j :: 0 <= j < n + 1 && buckets[j].key == k && buckets[j].group.projectPath != ""
    {
      if k in gkeyToSid {
        var j :| 0 <= j < n && buckets[j].key == k && buckets[j].group.projectPath != "";
      } else {
        assert buckets[n].key == k;
      }
    }
  }

  lemma MappedNext(h: StableId, buckets: seq<SessionBucket>, n: nat, gkeyToSid: map<GroupKey, string>,
                   sid: Option<string>)
    requires n < |buckets| && Mapped(h, buckets, n, gkeyToSid) && sid == SidOf(h, buckets[n].group)
    requires forall i, j :: 0 <= i < j < |buckets| ==> buckets[i].key != buckets[j].key
    ensures var after := if sid.None? then gkeyToSid else gkeyToSid[buckets[n].key := sid.value];
            && Mapped(h, buckets, n + 1, after)
            && after.Values == gkeyToSid.Values + Opt(sid)
            && |after| == |gkeyToSid| + if sid.None? then 0 else 1
  {
    UnmappedYet(h, buckets, n, gkeyToSid);
    MappedStep(h, buckets, n, gkeyToSid);
    if sid.Some? {
      FreshKey(gkeyToSid, buckets[n].key, sid.value);
      FreshKeyCount(gkeyToSid, buckets[n].key, sid.value);
    }
  }

  /** The session a record's turn goes under. */
  function TurnSession(r: Record, gkeyToSid: map<GroupKey, string>): (sid: Option<string>)
    ensures sid.Some? ==> sid.value in gkeyToSid.Values
  {
    if r.rtype.Message? && KeyOf(r).Some? && KeyOf(r).value in gkeyToSid then Some(gkeyToSid[KeyOf(r).value]) else None
  }

  function TurnKey(h: StableId, r: Record, gkeyToSid: map<GroupKey, string>): Option<string> {
    var sid := TurnSession(r, gkeyToSid);
    if sid.Some? then Some(TurnIdOf(h, sid.value, r)) else None
  }

  ghost function TurnKeys(h: StableId, records: seq<Record>, gkeyToSid: map<GroupKey, string>): set<string> {
    set r | r in records && TurnKey(h, r, gkeyToSid).Some? :: TurnKey(h, r, gkeyToSid).value
  }

  function Opt(t: Option<string>): set<string> { if t.Some? then {t.value} else {} }

  lemma TurnKeysAppend(h: StableId, records: seq<Record>, r: Record, gkeyToSid: map<GroupKey, string>)
    ensures TurnKeys(h, records + [r], gkeyToSid) == TurnKeys(h, records, gkeyToSid) + Opt(TurnKey(h, r, gkeyToSid))
  {
    assert forall x :: x in records + [r] <==> x in records || x == r;
  }

  /** `now` is `was` with the turns of the first `n` records; rows already there are untouched. */
  ghost predicate TurnsGrown(h: StableId, was: map<string, TurnRow>, now: map<string, TurnRow>, records: seq<Record>,
                             n: nat, gkeyToSid: map<GroupKey, string>)
    requires n <= |records|
  {
    && (forall t :: t in was ==> t in now && now[t] == was[t])
    && now.Keys == was.Keys + TurnKeys(h, records[..n], gkeyToSid)
  }

  lemma TurnsGrownStep(h: StableId, was: map<string, TurnRow>, now: map<string, TurnRow>, next: map<string, TurnRow>,
                       records: seq<Record>, n: nat, gkeyToSid: map<GroupKey, string>)
    requires n < |records| && TurnsGrown(h, was, now, records, n, gkeyToSid)
    requires forall t :: t in now ==> t in next && next[t] == now[t]
    requires next.Keys == now.Keys + Opt(TurnKey(h, records[n], gkeyToSid))
    ensures TurnsGrown(h, was, next, records, n + 1, gkeyToSid)
  {
    assert records[..n + 1] == records[..n] + [records[n]];
    TurnKeysAppend(h, records[..n], records[n], gkeyToSid);
    Sequences.UnionAssoc(was.Keys, TurnKeys(h, records[..n], gkeyToSid), Opt(TurnKey(h, records[n], gkeyToSid)));
  }

  /** The mapping covers exactly the groups with a project. */
  lemma MappedIsGroups(h: StableId, records: seq<Record>, buckets: seq<SessionBucket>, gkeyToSid: map<GroupKey, string>,
                       k: GroupKey)
    requires BucketsOf(GroupMap(records), buckets) && Mapped(h, buckets, |buckets|, gkeyToSid)
    ensures k in gkeyToSid <==> k in KeysOf(records) && GroupOf(records, k).projectPath != ""
    ensures k in gkeyToSid ==>
              gkeyToSid[k] == SessionIdOf(h, GroupOf(records, k).sourceId, GroupOf(records, k).nativeId)
  {
    var groups := GroupMap(records);
    if k in groups {
      var b := SessionBucket(k, groups[k]);
      assert b in buckets;
      var j :| 0 <= j < |buckets| && buckets[j] == b;
    }
    if k in gkeyToSid {
      var j :| 0 <= j < |buckets| && buckets[j].key == k && buckets[j].group.projectPath != "";
      assert buckets[j] in buckets;
    }
  }

  lemma MappedRecord(h: StableId, records: seq<Record>, buckets: seq<SessionBucket>, gkeyToSid: map<GroupKey, string>,
                     r: Record)
    requires BucketsOf(GroupMap(records), buckets) && Mapped(h, buckets, |buckets|, gkeyToSid) && r in records
    ensures StoredAs(records, r).Some? <==> KeyOf(r).Some? && KeyOf(r).value in gkeyToSid
    ensures StoredAs(records, r).Some? ==>
              gkeyToSid[KeyOf(r).value] == SessionIdOf(h, StoredAs(records, r).value.0, StoredAs(records, r).value.1)
  {
    var k := KeyOf(r);
    if k.Some? {
      assert k.value in KeysOf(records);
      MappedIsGroups(h, records, buckets, gkeyToSid, k.value);
    }
  }

  lemma TurnKeyIsTurnId(h: StableId, records: seq<Record>, gkeyToSid: map<GroupKey, string>, r: Record)
    requires StoredAs(records, r).Some? <==> KeyOf(r).Some? && KeyOf(r).value in gkeyToSid
    requires StoredAs(records, r).Some? ==>
               gkeyToSid[KeyOf(r).value] == SessionIdOf(h, StoredAs(records, r).value.0, StoredAs(records, r).value.1)
    ensures TurnKey(h, r, gkeyToSid) == TurnId(h, records, r)
  {
    var k := KeyOf(r);
    var s := StoredAs(records, r);
  }

  lemma KeysMatchAttribution(h: StableId, records: seq<Record>, buckets: seq<SessionBucket>, gkeyToSid: map<GroupKey,
                             string>)
    requires BucketsOf(GroupMap(records), buckets) && Mapped(h, buckets, |buckets|, gkeyToSid)
    ensures gkeyToSid.Values == SessionIds(h, records)
    ensures TurnKeys(h, records, gkeyToSid) == TurnIds(h, records)
  {
    forall r | r in records
      ensures StoredAs(records, r).Some? <==> KeyOf(r).Some? && KeyOf(r).value in gkeyToSid
      ensures StoredAs(records, r).Some? ==>
                gkeyToSid[KeyOf(r).value] == SessionIdOf(h, StoredAs(records, r).value.0, StoredAs(records, r).value.1)
      ensures TurnKey(h, r, gkeyToSid) == TurnId(h, records, r)
    {
      MappedRecord(h, records, buckets, gkeyToSid, r);
      TurnKeyIsTurnId(h, records, gkeyToSid, r);
    }
    forall k | k in gkeyToSid ensures k in KeysOf(records) {
      MappedIsGroups(h, records, buckets, gkeyToSid, k);
    }
    ValuesAreSessionIds(h, records, gkeyToSid);
  }

  lemma ValuesAreSessionIds(h: StableId, records: seq<Record>, gkeyToSid: map<GroupKey, string>)
    requires forall k :: k in gkeyToSid ==> k in KeysOf(records)
    requires forall r :: r in records ==>
               && (StoredAs(records, r).Some? <==> KeyOf(r).Some? && KeyOf(r).value in gkeyToSid)
               && (StoredAs(records, r).Some? ==>
                     gkeyToSid[KeyOf(r).value]
                         == SessionIdOf(h, StoredAs(records, r).value.0, StoredAs(records, r).value.1))
    ensures gkeyToSid.Values == SessionIds(h, records)
  {
    forall sid | sid in gkeyToSid.Values ensures sid in SessionIds(h, records) {
      var k :| k in gkeyToSid && gkeyToSid[k] == sid;
      var r :| r in records && KeyOf(r).Some? && KeyOf(r).value == k;
      assert StoredAs(records, r).Some?;
    }
  }

  class Store {
    const stableId: StableId
    var projects: map<string, ProjectRow>
    var sessions: map<string, SessionRow>
    var turns: map<string, TurnRow>

    constructor (h: StableId)
      ensures stableId == h && projects == map[] && sessions == map[] && turns == map[] && Valid()
    {
      stableId := h;
      projects, sessions, turns := map[], map[], map[];
    }

    /** Foreign keys: sessions name projects, turns name sessions. */
    ghost predicate Valid()
      reads this
    {
      && (forall s :: s in sessions ==> sessions[s].projectId in projects)
      && (forall t :: t in turns ==> turns[t].sessionId in sessions)
    }

    method UpsertProject(path: string, firstMs: int, lastMs: int) returns (pid: string)
      requires Valid()
      modifies this`projects
      ensures Valid() && pid == ProjectIdOf(stableId, path)
      ensures projects.Keys == old(projects.Keys) + {pid}
      ensures pid in old(projects) ==> projects[pid] == old(projects)[pid].(lastMs := lastMs)
      ensures forall p :: p in old(projects) && p != pid ==> projects[p] == old(projects)[p]
    {
      pid := ProjectIdOf(stableId, path);
      var row := if pid in projects then projects[pid].(lastMs := lastMs) else ProjectRow(path, firstMs, lastMs);
      projects := projects[pid := row];
    }

    /** Insert, or refresh only the end time and the record count. */
    method UpsertSession(projectId: string, g: Group) returns (sid: string)
      requires Valid() && projectId in projects
      modifies this`sessions
      ensures Valid() && sid == SessionIdOf(stableId, g.sourceId, g.nativeId)
      ensures sessions.Keys == old(sessions.Keys) + {sid}
      ensures sid in old(sessions) ==>
                sessions[sid] == old(sessions)[sid].(endedMs := g.endedMs, recordCount := g.turnCount)
      ensures sid !in old(sessions) ==>
                sessions[sid] == SessionRow(projectId, g.sourceId, g.nativeId, g.startedMs, g.endedMs, g.turnCount)
      ensures forall s :: s in old(sessions) && s != sid ==> sessions[s] == old(sessions)[s]
    {
      sid := SessionIdOf(stableId, g.sourceId, g.nativeId);
      sessions := sessions[sid :=
        if sid in sessions then sessions[sid].(endedMs := g.endedMs, recordCount := g.turnCount)
        else SessionRow(projectId, g.sourceId, g.nativeId, g.startedMs, g.endedMs, g.turnCount)];
    }

    /** INSERT OR IGNORE on the content-derived id. */
    method InsertTurn(sid: string, r: Record) returns (inserted: nat)
      requires Valid() && sid in sessions
      modifies this`turns
      ensures Valid()
      ensures inserted == if TurnIdOf(stableId, sid, r) in old(turns) then 0 else 1
      ensures turns == if inserted == 0 then old(turns)
                       else old(turns)[TurnIdOf(stableId, sid, r) := TurnRowOf(sid, r)]
    {
      var tid := TurnIdOf(stableId, sid, r);
      if tid in turns { return 0; }
      turns := turns[tid := TurnRowOf(sid, r)];
      return 1;
    }

    /** The project of one session, unless it names none or its path is done. */
    method PersistProject(buckets: seq<SessionBucket>, i: nat, projectIds: map<string, string>)
      returns (projectIds': map<string, string>)
      requires Valid() && i < |buckets|
      requires forall p :: p in projectIds ==> projectIds[p] == ProjectIdOf(stableId, p) && projectIds[p] in projects
      modifies this`projects
      ensures Valid()
      ensures projects.Keys == old(projects.Keys) + PathId(stableId, buckets[i].group.projectPath)
      ensures projectIds'.Keys == projectIds.Keys + PathOf(buckets[i].group.projectPath)
      ensures forall p :: p in projectIds' ==> projectIds'[p] == ProjectIdOf(stableId, p) && projectIds'[p] in projects
    {
      var path := buckets[i].group.projectPath;
      projectIds' := projectIds;
      if path != "" && path !in projectIds {
        var firstMs, lastMs := SpanOfPath(buckets, path, i);
        var pid := UpsertProject(path, firstMs, lastMs);
        projectIds' := projectIds[path := pid];
      }
    }

    /** A project row for every path the sessions name, and no other. */
    method PersistProjects(buckets: seq<SessionBucket>) returns (projectIds: map<string, string>)
      requires Valid()
      modifies this`projects
      ensures Valid()
      ensures projects.Keys == old(projects.Keys) + IdsOfPaths(stableId, BucketPaths(buckets, |buckets|))
      ensures projectIds.Keys == BucketPaths(buckets, |buckets|)
      ensures forall p :: p in projectIds ==> projectIds[p] == ProjectIdOf(stableId, p) && projectIds[p] in projects
    {
      projectIds := map[];
      ghost var added: set<string> := {};
      for i := 0 to |buckets|
        invariant Valid() && added == IdsOfPaths(stableId, BucketPaths(buckets, i))
        invariant projects.Keys == old(projects.Keys) + added
        invariant projectIds.Keys == BucketPaths(buckets, i)
        invariant forall p :: p in projectIds ==> projectIds[p] == ProjectIdOf(stableId, p) && projectIds[p] in projects
      {
        projectIds := PersistProject(buckets, i, projectIds);
        BucketPathsNext(stableId, buckets, i);
        Sequences.UnionAssoc(old(projects.Keys), added, PathId(stableId, buckets[i].group.projectPath));
        added := added + PathId(stableId, buckets[i].group.projectPath);
      }
    }

    method SpanOfPath(buckets: seq<SessionBucket>, path: string, at: nat) returns (firstMs: int, lastMs: int)
      requires at < |buckets| && buckets[at].group.projectPath == path
      ensures forall b :: b in buckets && b.group.projectPath == path ==>
                firstMs <= b.group.startedMs && b.group.endedMs <= lastMs
      ensures exists b :: b in buckets && b.group.projectPath == path && b.group.startedMs == firstMs
      ensures exists b :: b in buckets && b.group.projectPath == path && b.group.endedMs == lastMs
    {
      firstMs, lastMs := buckets[at].group.startedMs, buckets[at].group.endedMs;
      for i := 0 to |buckets|
        invariant forall j :: 0 <= j < i && buckets[j].group.projectPath == path ==>
                    firstMs <= buckets[j].group.startedMs && buckets[j].group.endedMs <= lastMs
        invariant exists b :: b in buckets && b.group.projectPath == path && b.group.startedMs == firstMs
        invariant exists b :: b in buckets && b.group.projectPath == path && b.group.endedMs == lastMs
      {
        var g := buckets[i].group;
        assert buckets[i] in buckets;
        if g.projectPath == path {
          if g.startedMs < firstMs { firstMs := g.startedMs; }
          if g.endedMs > lastMs { lastMs := g.endedMs; }
        }
      }
    }

    /** The session row of one group, unless its project is unresolved. */
    method PersistSession(b: SessionBucket, projectIds: map<string, string>) returns (sid: Option<string>)
      requires Valid() && "" !in projectIds
      requires b.group.projectPath != "" ==>
                 b.group.projectPath in projectIds && projectIds[b.group.projectPath] in projects
      modifies this`sessions
      ensures Valid()
      ensures sid == SidOf(stableId, b.group)
      ensures sessions.Keys == old(sessions.Keys) + Opt(sid)
    {
      if b.group.projectPath !in projectIds { return None; }
      var id := UpsertSession(projectIds[b.group.projectPath], b.group);
      return Some(id);
    }

    /** A session row for every group with a project, and the id each group key got. */
    method PersistSessions(buckets: seq<SessionBucket>, projectIds: map<string, string>)
      returns (gkeyToSid: map<GroupKey, string>, skipped: nat)
      requires Valid() && "" !in projectIds
      requires forall i, j :: 0 <= i < j < |buckets| ==> buckets[i].key != buckets[j].key
      requires forall j :: 0 <= j < |buckets| && buckets[j].group.projectPath != "" ==>
                 buckets[j].group.projectPath in projectIds
      requires forall p :: p in projectIds ==> projectIds[p] in projects
      modifies this`sessions
      ensures Valid()
      ensures sessions.Keys == old(sessions.Keys) + gkeyToSid.Values
      ensures Mapped(stableId, buckets, |buckets|, gkeyToSid)
      ensures skipped + |gkeyToSid| == |buckets|
    {
      gkeyToSid, skipped := map[], 0;
      ghost var used: set<string> := {};
      for i := 0 to |buckets|
        invariant Valid()
        invariant sessions.Keys == old(sessions.Keys) + used && used == gkeyToSid.Values
        invariant Mapped(stableId, buckets, i, gkeyToSid)
        invariant skipped + |gkeyToSid| == i
      {
        var sid := PersistSession(buckets[i], projectIds);
        MappedNext(stableId, buckets, i, gkeyToSid, sid);
        Sequences.UnionAssoc(old(sessions.Keys), used, Opt(sid));
        used := used + Opt(sid);
        if sid.None? {
          skipped := skipped + 1;
        } else {
          gkeyToSid := gkeyToSid[buckets[i].key := sid.value];
        }
      }
    }

    method PersistTurn(r: Record, gkeyToSid: map<GroupKey, string>) returns (inserted: nat)
      requires Valid() && gkeyToSid.Values <= sessions.Keys
      modifies this`turns
      ensures Valid() && inserted == |turns| - |old(turns)|
      ensures forall t :: t in old(turns) ==> t in turns && turns[t] == old(turns)[t]
      ensures turns.Keys == old(turns.Keys) + Opt(TurnKey(stableId, r, gkeyToSid))
    {
      var sid := TurnSession(r, gkeyToSid);
      if sid.None? { return 0; }
      inserted := InsertTurn(sid.value, r);
    }

    /** Turns of the stored groups; INSERT OR IGNORE, so existing rows never change. */
    method PersistTurns(records: seq<Record>, gkeyToSid: map<GroupKey, string>) returns (count: nat)
      requires Valid() && gkeyToSid.Values <= sessions.Keys
      modifies this`turns
      ensures Valid() && count == |turns| - |old(turns)|
      ensures forall t :: t in old(turns) ==> t in turns && turns[t] == old(turns)[t]
      ensures turns.Keys == old(turns.Keys) + TurnKeys(stableId, records, gkeyToSid)
    {
      count := 0;
      ghost var was := turns;
      assert TurnsGrown(stableId, was, turns, records, 0, gkeyToSid) by { assert was.Keys + {} == was.Keys; }
      for i := 0 to |records|
        invariant Valid() && count == |turns| - |was| && was == old(turns)
        invariant TurnsGrown(stableId, was, turns, records, i, gkeyToSid)
      {
        ghost var now := turns;
        var inserted := PersistTurn(records[i], gkeyToSid);
        TurnsGrownStep(stableId, was, now, turns, records, i, gkeyToSid);
        count := count + inserted;
      }
      assert records[..|records|] == records;
    }

    /**
     Persist one correlated batch.  The new ids are exactly the batch's session
     and turn ids, existing turns never change, and a batch whose turn ids are
     all present already adds nothing.
     */
    method PersistCorrelated(records: seq<Record>, buckets: seq<SessionBucket>) returns (turnCount: nat, skipped: nat)
      requires Valid() && BucketsOf(GroupMap(records), buckets)
      modifies this
      ensures Valid()
      ensures projects.Keys == old(projects.Keys) + ProjectIds(stableId, records)
      ensures sessions.Keys == old(sessions.Keys) + SessionIds(stableId, records)
      ensures turns.Keys == old(turns.Keys) + TurnIds(stableId, records)
      ensures forall t :: t in old(turns) ==> turns[t] == old(turns)[t]
      ensures turnCount == |turns| - |old(turns)|
    {
      var gkeyToSid;
      gkeyToSid, skipped := PersistGroups(records, buckets);
      turnCount := PersistTurns(records, gkeyToSid);
      KeysMatchAttribution(stableId, records, buckets, gkeyToSid);
    }

    /** The project and session rows of a batch. */
    method PersistGroups(records: seq<Record>, buckets: seq<SessionBucket>)
      returns (gkeyToSid: map<GroupKey, string>, skipped: nat)
      requires Valid() && BucketsOf(GroupMap(records), buckets)
      modifies this`projects, this`sessions
      ensures Valid() && gkeyToSid.Values <= sessions.Keys
      ensures projects.Keys == old(projects.Keys) + ProjectIds(stableId, records)
      ensures sessions.Keys == old(sessions.Keys) + gkeyToSid.Values
      ensures Mapped(stableId, buckets, |buckets|, gkeyToSid)
      ensures skipped + |gkeyToSid| == |buckets|
    {
      DistinctKeys(GroupMap(records), buckets);
      AllBucketPaths(GroupMap(records), buckets);
      var projectIds := PersistProjects(buckets);
      ghost var projectsNow := projects;
      forall j | 0 <= j < |buckets| && buckets[j].group.projectPath != ""
        ensures buckets[j].group.projectPath in projectIds
      {}
      gkeyToSid, skipped := PersistSessions(buckets, projectIds);
      assert projects == projectsNow;
    }

    /** A second run over identical records adds zero rows: all three tables hold what one run leaves. */
    method PersistTwice(records: seq<Record>, buckets: seq<SessionBucket>) returns (first: nat, second: nat)
      requires Valid() && BucketsOf(GroupMap(records), buckets)
      modifies this
      ensures Valid() && second == 0 && first == |turns| - |old(turns)|
      ensures projects.Keys == old(projects.Keys) + ProjectIds(stableId, records)
      ensures sessions.Keys == old(sessions.Keys) + SessionIds(stableId, records)
      ensures turns.Keys == old(turns.Keys) + TurnIds(stableId, records)
    {
      var skipped;
      first, skipped := PersistCorrelated(records, buckets);
      ghost var keys := turns.Keys;
      second, skipped := PersistCorrelated(records, buckets);
      assert turns.Keys == keys;
      assert |turns| == |turns.Keys|;
    }
  }
}
