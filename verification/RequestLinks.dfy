/**
 Writing correlation links to router requests.  A link names its session as
 source and native id joined by a colon; the persist step cuts that name again
 and looks up the session id stored for it.
 */
module RequestLinks {
  import opened Wrappers
  import opened Records
  import opened SessionGroups
  import opened RouterMatch
  import opened Correlate
  import opened Persist

  datatype LinkRow = LinkRow(session: string, tier: nat, confidence: string)

  /** A request row is known by its source and native id. */
  type RequestKey = (string, string)

  /** Requests with their link if they have one. */
  type LinkRows = map<RequestKey, Option<LinkRow>>

  type SessionNames = map<(string, string), string>

  // ----- the name of a session in a link -----

  function BeforeColon(s: string): string {
    if s == [] || s[0] == ':' then "" else [s[0]] + BeforeColon(s[1..])
  }

  function AfterColon(s: string): string {
    if s == [] then "" else if s[0] == ':' then s[1..] else AfterColon(s[1..])
  }

  /** Cutting at the first colon gives source and native id back: no source id holds a colon. */
  lemma {:induction false} NameReadsBack(source: string, native: string)
    requires ':' !in source
    ensures BeforeColon(source + ":" + native) == source && AfterColon(source + ":" + native) == native
  {
    var s := source + ":" + native;
    if source == "" {
      assert s[1..] == native;
    } else {
      NameReadsBack(source[1..], native);
      assert s[1..] == source[1..] + ":" + native;
    }
  }

  function Resolve(link: Link, sids: SessionNames): Option<string> {
    var name := (BeforeColon(link.leftId), AfterColon(link.leftId));
    if name in sids then Some(sids[name]) else None
  }

  /** Some stored session goes by this name. */
  ghost predicate Stored(groups: Groups, name: (string, string)) {
    exists k :: k in groups && groups[k].projectPath != "" && NameOfGroup(groups[k]) == name
  }

  /** The session ids of the groups with a project, by name. */
  ghost predicate NamesStored(h: StableId, groups: Groups, sids: SessionNames) {
    && (forall name :: name in sids <==> Stored(groups, name))
    && forall name :: name in sids ==> sids[name] == SessionIdOf(h, name.0, name.1)
  }

  /** One of the first `n` sessions goes by this name. */
  ghost predicate StoredAmong(buckets: seq<SessionBucket>, n: nat, name: (string, string))
    requires n <= |buckets|
  {
    exists j :: 0 <= j < n && buckets[j].group.projectPath != "" && NameOfGroup(buckets[j].group) == name
  }

  lemma OneMoreStored(buckets: seq<SessionBucket>, n: nat, name: (string, string))
    requires n < |buckets|
    ensures StoredAmong(buckets, n + 1, name)
            <==> || StoredAmong(buckets, n, name)
                 || (buckets[n].group.projectPath != "" && NameOfGroup(buckets[n].group) == name)
  {}

  /** `sids` knows the first `n` sessions. */
  ghost predicate Knows(h: StableId, buckets: seq<SessionBucket>, n: nat, sids: SessionNames)
    requires n <= |buckets|
  {
    && (forall name :: name in sids <==> StoredAmong(buckets, n, name))
    && forall name :: name in sids ==> sids[name] == SessionIdOf(h, name.0, name.1)
  }

  function WithName(h: StableId, sids: SessionNames, g: Group): SessionNames {
    if g.projectPath == "" then sids else sids[NameOfGroup(g) := SessionIdOf(h, g.sourceId, g.nativeId)]
  }

  lemma KnowsNext(h: StableId, buckets: seq<SessionBucket>, n: nat, sids: SessionNames)
    requires n < |buckets| && Knows(h, buckets, n, sids)
    ensures Knows(h, buckets, n + 1, WithName(h, sids, buckets[n].group))
  {
    var next := WithName(h, sids, buckets[n].group);
    forall name ensures name in next <==> StoredAmong(buckets, n + 1, name) { OneMoreStored(buckets, n, name); }
  }

  lemma AllStored(groups: Groups, buckets: seq<SessionBucket>, name: (string, string))
    requires BucketsOf(groups, buckets)
    ensures StoredAmong(buckets, |buckets|, name) <==> Stored(groups, name)
  {
    if Stored(groups, name) {
      var k :| k in groups && groups[k].projectPath != "" && NameOfGroup(groups[k]) == name;
      var j :| 0 <= j < |buckets| && buckets[j] == SessionBucket(k, groups[k]);
    }
    if StoredAmong(buckets, |buckets|, name) {
      var j :| 0 <= j < |buckets| && buckets[j].group.projectPath != "" && NameOfGroup(buckets[j].group) == name;
      assert buckets[j] in buckets;
    }
  }

  method StoredNames(h: StableId, ghost groups: Groups, buckets: seq<SessionBucket>) returns (sids: SessionNames)
    requires BucketsOf(groups, buckets)
    ensures NamesStored(h, groups, sids)
  {
    sids := map[];
    for i := 0 to |buckets|
      invariant Knows(h, buckets, i, sids)
    {
      KnowsNext(h, buckets, i, sids);
      sids := WithName(h, sids, buckets[i].group);
    }
    forall name ensures name in sids <==> Stored(groups, name) { AllStored(groups, buckets, name); }
  }

  function NameOfGroup(g: Group): (string, string) { (g.sourceId, g.nativeId) }

  /** A link resolves to its group's session exactly when a session of that name is stored. */
  lemma LinkResolves(h: StableId, groups: Groups, sids: SessionNames, r: Record, c: Choice)
    requires NamesStored(h, groups, sids) && c.group in groups && ':' !in c.group.0
    requires groups[c.group].sourceId == c.group.0
    ensures Resolve(LinkFor(groups, r, c), sids)
            == if Stored(groups, NameOfGroup(groups[c.group])) then
                 Some(SessionIdOf(h, c.group.0, groups[c.group].nativeId))
               else None
  {
    NameReadsBack(c.group.0, groups[c.group].nativeId);
  }

  // ----- the table -----

  /** The row a link updates: always one of the router source, whatever source the request came from. */
  function Target(link: Link): RequestKey { (ROUTER_SOURCE, link.rightId) }

  function RowOf(link: Link, sid: string): LinkRow { LinkRow(sid, link.tier, link.confidence) }

  /** The links written one after another; a link without a session or a request changes nothing. */
  function Linked(rows: LinkRows, links: seq<Link>, sids: SessionNames): LinkRows {
    if links == [] then rows
    else
      var before, link := Linked(rows, links[..|links| - 1], sids), links[|links| - 1];
      var sid := Resolve(link, sids);
      if sid.Some? && Target(link) in before then before[Target(link) := Some(RowOf(link, sid.value))] else before
  }

  predicate Writes(link: Link, id: RequestKey, sids: SessionNames) { Target(link) == id && Resolve(link, sids).Some? }

  /** A request carries its last link that resolves, and otherwise what it had. */
  lemma {:induction false} LastLinkStands(rows: LinkRows, links: seq<Link>, sids: SessionNames, id: RequestKey)
    returns (n: nat)
    ensures Linked(rows, links, sids).Keys == rows.Keys
    ensures id in rows && (exists j :: 0 <= j < |links| && Writes(links[j], id, sids)) ==>
              && n < |links| && Writes(links[n], id, sids)
              && (forall j :: n < j < |links| ==> !Writes(links[j], id, sids))
              && Linked(rows, links, sids)[id] == Some(RowOf(links[n], Resolve(links[n], sids).value))
    ensures id in rows && (forall j :: 0 <= j < |links| ==> !Writes(links[j], id, sids)) ==>
              Linked(rows, links, sids)[id] == rows[id]
    decreases |links|
  {
    n := 0;
    if links != [] {
      var last := |links| - 1;
      n := LastLinkStands(rows, links[..last], sids, id);
      if Writes(links[last], id, sids) {
        n := last;
      } else if j :| 0 <= j < |links| && Writes(links[j], id, sids) {
        assert links[..last][j] == links[j];
      }
    }
  }

  /** Every link of the pass is that of a request, and every matched request has one. */
  lemma {:induction false} LinksOfRequests(groups: Groups, rs: seq<Record>, windowMs: int, links: seq<Link>,
                                           unmatched: nat)
    requires LinksFor(groups, rs, windowMs, links, unmatched)
    ensures forall link :: link in links ==> exists r :: r in rs && LinkOf(groups, r, windowMs) == Some(link)
    ensures forall r :: r in rs && LinkOf(groups, r, windowMs).Some? ==> LinkOf(groups, r, windowMs).value in links
    decreases |rs|
  {
    if rs != [] {
      var n := |rs| - 1;
      assert rs == rs[..n] + [rs[n]];
      match LinearMatch(groups, rs[n], windowMs)
      case None => LinksOfRequests(groups, rs[..n], windowMs, links, unmatched - 1);
      case Some(c) =>
        LinksOfRequests(groups, rs[..n], windowMs, links[..|links| - 1], unmatched);
        assert links == links[..|links| - 1] + [links[|links| - 1]];
        assert LinkOf(groups, rs[n], windowMs) == Some(links[|links| - 1]);
        forall link | link in links ensures exists r :: r in rs && LinkOf(groups, r, windowMs) == Some(link) {
          if link in links[..|links| - 1] {
            var r :| r in rs[..n] && LinkOf(groups, r, windowMs) == Some(link);
            assert r in rs;
          }
        }
    }
  }

  ghost function LinkOf(groups: Groups, r: Record, windowMs: int): Option<Link> {
    var c := LinearMatch(groups, r, windowMs);
    if c.Some? && c.value.group in groups then Some(LinkFor(groups, r, c.value)) else None
  }

  /** What the request's row should carry afterwards. */
  ghost function RowAfter(groups: Groups, r: Record, windowMs: int, sids: SessionNames, was: Option<LinkRow>)
    : Option<LinkRow>
  {
    var link := LinkOf(groups, r, windowMs);
    if link.None? || Resolve(link.value, sids).None? then was
    else Some(RowOf(link.value, Resolve(link.value, sids).value))
  }

  /**
   The router row of a request whose id no other request of the batch shares
   carries the session of its linear-scan match when that session is stored, and
   otherwise keeps what it had.
   */
  lemma RequestGetsItsMatch(groups: Groups, rs: seq<Record>, windowMs: int, links: seq<Link>, unmatched: nat,
                            rows: LinkRows, sids: SessionNames, r: Record)
    requires LinksFor(groups, rs, windowMs, links, unmatched)
    requires r in rs && (ROUTER_SOURCE, r.nativeId) in rows
    requires forall x :: x in rs && x.nativeId == r.nativeId ==> x == r
    ensures var id := (ROUTER_SOURCE, r.nativeId);
            && Linked(rows, links, sids).Keys == rows.Keys
            && Linked(rows, links, sids)[id] == RowAfter(groups, r, windowMs, sids, rows[id])
  {
    var id := (ROUTER_SOURCE, r.nativeId);
    LinksOfRequests(groups, rs, windowMs, links, unmatched);
    var n := LastLinkStands(rows, links, sids, id);
    var link := LinkOf(groups, r, windowMs);
    forall j | 0 <= j < |links| && Target(links[j]) == id ensures link == Some(links[j]) {
      assert links[j] in links;
      var x :| x in rs && LinkOf(groups, x, windowMs) == Some(links[j]);
    }
    if link.Some? && Resolve(link.value, sids).Some? {
      var j :| 0 <= j < |links| && links[j] == link.value;
      assert Writes(links[j], id, sids);
    }
  }

  /** A request stored under any other source is never linked. */
  lemma OtherSourcesStayUnlinked(rows: LinkRows, links: seq<Link>, sids: SessionNames, id: RequestKey)
    requires id in rows && id.0 != ROUTER_SOURCE
    ensures id in Linked(rows, links, sids) && Linked(rows, links, sids)[id] == rows[id]
  {
    var n := LastLinkStands(rows, links, sids, id);
  }

  /** Linking again changes nothing. */
  lemma LinkingTwice(rows: LinkRows, links: seq<Link>, sids: SessionNames)
    ensures Linked(Linked(rows, links, sids), links, sids) == Linked(rows, links, sids)
  {
    var once := Linked(rows, links, sids);
    var twice := Linked(once, links, sids);
    var _ := LastLinkStands(rows, links, sids, ("", ""));
    var _ := LastLinkStands(once, links, sids, ("", ""));
    forall id | id in rows ensures twice[id] == once[id] {
      var n := LastLinkStands(rows, links, sids, id);
      var m := LastLinkStands(once, links, sids, id);
    }
  }

  class RequestTable {
    var rows: LinkRows

    constructor (ids: set<RequestKey>)
      ensures rows.Keys == ids && forall id :: id in rows ==> rows[id] == None
    {
      rows := map id | id in ids :: None;
    }

    /** UPDATE by request id; a missing request is not an error. */
    method LinkRequest(id: RequestKey, row: LinkRow) returns (written: nat)
      modifies this
      ensures rows == if id in old(rows) then old(rows)[id := Some(row)] else old(rows)
      ensures written == if id in old(rows) then 1 else 0
    {
      if id !in rows { return 0; }
      rows := rows[id := Some(row)];
      return 1;
    }

    method PersistLinks(links: seq<Link>, sids: SessionNames) returns (written: nat, skipped: nat)
      modifies this
      ensures rows == Linked(old(rows), links, sids) && written + skipped == |links|
    {
      written, skipped := 0, 0;
      for i := 0 to |links|
        invariant rows == Linked(old(rows), links[..i], sids) && written + skipped == i
      {
        assert links[..i + 1][..i] == links[..i];
        var sid, done := Resolve(links[i], sids), 0;
        if sid.Some? { done := LinkRequest(Target(links[i]), RowOf(links[i], sid.value)); }
        if done > 0 { written := written + 1; } else { skipped := skipped + 1; }
      }
      assert links[..|links|] == links;
    }
  }
}
