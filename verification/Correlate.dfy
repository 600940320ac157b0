/**
 The correlation pass: one loop groups the records, then every router request
 is matched against the finished groups.
 */
module Correlate {
  import opened Wrappers
  import opened Records
  import opened SessionGroups
  import opened RouterMatch
  import Text

  datatype Link = Link(leftId: string, rightId: string, tier: nat, confidence: string)

  datatype SessionBucket = SessionBucket(key: GroupKey, group: Group)

  datatype CorrelateResult = CorrelateResult(
    sessions: seq<SessionBucket>,
    links: seq<Link>,
    unmatched: nat,
    projectPaths: set<string>)

  function GroupMap(records: seq<Record>): Groups {
    map k | k in KeysOf(records) :: GroupOf(records, k)
  }

  function ConfidenceOf(tier: nat): string {
    if tier == 1 then "exact" else if tier == 2 then "high" else "medium"
  }

  function LinkFor(groups: Groups, r: Record, c: Choice): Link
    requires c.group in groups
  {
    Link(c.group.0 + ":" + groups[c.group].nativeId, r.nativeId, c.tier, ConfidenceOf(c.tier))
  }

  function RouterRecords(records: seq<Record>): seq<Record> {
    if records == [] then []
    else RouterRecords(records[..|records| - 1]) +
         if IsRouterRecord(records[|records| - 1]) then [records[|records| - 1]] else []
  }

  // ----- sorted(router_records, key=(ts, native id, file)) -----

  predicate RouterBefore(a: Record, b: Record) {
    a.ts < b.ts || (a.ts == b.ts && Text.PairBefore((a.nativeId, a.sourceFile), (b.nativeId, b.sourceFile)))
  }

  function InsertRouter(r: Record, sorted: seq<Record>): seq<Record> {
    if sorted == [] || !RouterBefore(r, sorted[|sorted| - 1]) then sorted + [r]
    else InsertRouter(r, sorted[..|sorted| - 1]) + [sorted[|sorted| - 1]]
  }

  function SortRouters(rs: seq<Record>): seq<Record> {
    if rs == [] then [] else InsertRouter(rs[|rs| - 1], SortRouters(rs[..|rs| - 1]))
  }

  lemma {:induction false} InsertRouterPermutes(r: Record, sorted: seq<Record>)
    ensures multiset(InsertRouter(r, sorted)) == multiset(sorted) + multiset{r}
    decreases |sorted|
  {
    if !(sorted == [] || !RouterBefore(r, sorted[|sorted| - 1])) {
      InsertRouterPermutes(r, sorted[..|sorted| - 1]);
      assert sorted == sorted[..|sorted| - 1] + [sorted[|sorted| - 1]];
    }
  }

  /** Sorting the requests loses none and invents none. */
  lemma {:induction false} SortRoutersPermutes(rs: seq<Record>)
    ensures multiset(SortRouters(rs)) == multiset(rs)
    ensures |SortRouters(rs)| == |rs|
    decreases |rs|
  {
    if rs != [] {
      SortRoutersPermutes(rs[..|rs| - 1]);
      InsertRouterPermutes(rs[|rs| - 1], SortRouters(rs[..|rs| - 1]));
      assert rs == rs[..|rs| - 1] + [rs[|rs| - 1]];
    }
    assert |multiset(SortRouters(rs))| == |SortRouters(rs)| && |multiset(rs)| == |rs|;
  }

  lemma NotAfterTransitive(a: Record, b: Record, c: Record)
    requires !RouterBefore(b, a) && !RouterBefore(c, b)
    ensures !RouterBefore(c, a)
  {
    var ka, kb, kc := (a.nativeId, a.sourceFile), (b.nativeId, b.sourceFile), (c.nativeId, c.sourceFile);
    Text.PairBeforeTotal(ka, kb);
    Text.PairBeforeTotal(kb, kc);
    Text.PairBeforeTotal(ka, kc);
    if Text.PairBefore(kc, ka) && Text.PairBefore(ka, kb) { Text.PairBeforeTransitive(kc, ka, kb); }
  }

  lemma BeforeIsStrict(a: Record, b: Record)
    requires RouterBefore(a, b)
    ensures !RouterBefore(b, a)
  {
    Text.PairBeforeTotal((a.nativeId, a.sourceFile), (b.nativeId, b.sourceFile));
  }

  /** No request precedes, by time, native id and file, one listed before it. */
  ghost predicate InRequestOrder(rs: seq<Record>) {
    forall i, j :: 0 <= i < j < |rs| ==> !RouterBefore(rs[j], rs[i])
  }

  lemma {:induction false} InsertRouterOrders(r: Record, sorted: seq<Record>)
    requires InRequestOrder(sorted)
    ensures InRequestOrder(InsertRouter(r, sorted))
    decreases |sorted|
  {
    if sorted != [] {
      var n := |sorted| - 1;
      if RouterBefore(r, sorted[n]) {
        var front := InsertRouter(r, sorted[..n]);
        InsertRouterOrders(r, sorted[..n]);
        InsertRouterPermutes(r, sorted[..n]);
        BeforeIsStrict(r, sorted[n]);
        forall i | 0 <= i < |front| ensures !RouterBefore(sorted[n], front[i]) {
          assert front[i] in multiset(front);
          assert front[i] == r || front[i] in sorted[..n];
        }
      } else {
        forall i | 0 <= i < n ensures !RouterBefore(r, sorted[i]) { NotAfterTransitive(sorted[i], sorted[n], r); }
      }
    }
  }

  predicate Ties(x: Record, r: Record) { !RouterBefore(x, r) && !RouterBefore(r, x) }

  /** The requests that tie with `r`, in list order. */
  function TiesOf(rs: seq<Record>, r: Record): seq<Record> {
    if rs == [] then [] else TiesOf(rs[..|rs| - 1], r) + if Ties(rs[|rs| - 1], r) then [rs[|rs| - 1]] else []
  }

  lemma TiesAppend(rs: seq<Record>, x: Record, r: Record)
    ensures TiesOf(rs + [x], r) == TiesOf(rs, r) + if Ties(x, r) then [x] else []
  {
    assert (rs + [x])[..|rs|] == rs;
  }

  lemma NotBothTie(x: Record, y: Record, r: Record)
    requires RouterBefore(x, y)
    ensures !(Ties(x, r) && Ties(y, r))
  {
    if Ties(x, r) && Ties(y, r) { NotAfterTransitive(y, r, x); }
  }

  lemma {:induction false} InsertRouterKeepsTies(x: Record, sorted: seq<Record>, r: Record)
    ensures TiesOf(InsertRouter(x, sorted), r) == TiesOf(sorted, r) + if Ties(x, r) then [x] else []
    decreases |sorted|
  {
    var n := |sorted| - 1;
    if sorted != [] && RouterBefore(x, sorted[n]) {
      InsertRouterKeepsTies(x, sorted[..n], r);
      TiesAppend(InsertRouter(x, sorted[..n]), sorted[n], r);
      NotBothTie(x, sorted[n], r);
    } else {
      TiesAppend(sorted, x, r);
    }
  }

  /** Sorting orders the requests. */
  lemma {:induction false} SortRoutersOrders(rs: seq<Record>)
    ensures InRequestOrder(SortRouters(rs))
    decreases |rs|
  {
    if rs != [] {
      SortRoutersOrders(rs[..|rs| - 1]);
      InsertRouterOrders(rs[|rs| - 1], SortRouters(rs[..|rs| - 1]));
    }
  }

  /** Sorting keeps the order of requests that tie. */
  lemma {:induction false} SortRoutersIsStable(rs: seq<Record>, r: Record)
    ensures TiesOf(SortRouters(rs), r) == TiesOf(rs, r)
    decreases |rs|
  {
    if rs != [] {
      SortRoutersIsStable(rs[..|rs| - 1], r);
      InsertRouterKeepsTies(rs[|rs| - 1], SortRouters(rs[..|rs| - 1]), r);
    }
  }

  // ----- sorted(groups.keys()) -----

  ghost predicate StrictlySorted(keys: seq<GroupKey>) {
    forall i, j :: 0 <= i < j < |keys| ==> Text.PairBefore(keys[i], keys[j])
  }

  function InsertKey(k: GroupKey, sorted: seq<GroupKey>): (r: seq<GroupKey>)
    requires StrictlySorted(sorted) && k !in sorted
    ensures StrictlySorted(r) && forall x :: x in r <==> x in sorted || x == k
  {
    if sorted == [] then [k]
    else
      var n := |sorted| - 1;
      Text.PairBeforeTotal(sorted[n], k);
      assert forall x :: x in sorted <==> x in sorted[..n] || x == sorted[n];
      if Text.PairBefore(sorted[n], k) then
        assert forall i :: 0 <= i < |sorted| ==> Text.PairBefore(sorted[i], k) by {
          forall i | 0 <= i < |sorted| ensures Text.PairBefore(sorted[i], k) {
            if i < n { Text.PairBeforeTransitive(sorted[i], sorted[n], k); }
          }
        }
        sorted + [k]
      else
        var front := InsertKey(k, sorted[..n]);
        assert forall i :: 0 <= i < |front| ==> Text.PairBefore(front[i], sorted[n]) by {
          forall i | 0 <= i < |front| ensures Text.PairBefore(front[i], sorted[n]) {
            assert front[i] in front;
          }
        }
        front + [sorted[n]]
  }

  method SortedKeys(order: seq<GroupKey>) returns (keys: seq<GroupKey>)
    requires forall i, j :: 0 <= i < j < |order| ==> order[i] != order[j]
    ensures StrictlySorted(keys) && forall k :: k in keys <==> k in order
  {
    keys := [];
    for i := 0 to |order|
      invariant StrictlySorted(keys) && forall k :: k in keys <==> k in order[..i]
    {
      keys := InsertKey(order[i], keys);
    }
    assert order[..|order|] == order;
  }

  // ----- the pass -----

  /** The outcome of matching a list of requests, one by one. */
  ghost predicate LinksFor(groups: Groups, rs: seq<Record>, windowMs: int, links: seq<Link>, unmatched: nat)
  {
    if rs == [] then links == [] && unmatched == 0
    else
      var r := rs[|rs| - 1];
      match LinearMatch(groups, r, windowMs)
      case None => unmatched > 0 && LinksFor(groups, rs[..|rs| - 1], windowMs, links, unmatched - 1)
      case Some(c) => links != [] && c.group in groups && links[|links| - 1] == LinkFor(groups, r, c)
                      && LinksFor(groups, rs[..|rs| - 1], windowMs, links[..|links| - 1], unmatched)
  }

  lemma {:induction false} LinksConserveRequests(groups: Groups, rs: seq<Record>, windowMs: int, links: seq<Link>,
                                                 unmatched: nat)
    requires LinksFor(groups, rs, windowMs, links, unmatched)
    ensures |links| + unmatched == |rs|
    decreases |rs|
  {
    if rs != [] {
      match LinearMatch(groups, rs[|rs| - 1], windowMs)
      case None => LinksConserveRequests(groups, rs[..|rs| - 1], windowMs, links, unmatched - 1);
      case Some(c) => LinksConserveRequests(groups, rs[..|rs| - 1], windowMs, links[..|links| - 1], unmatched);
    }
  }

  /** The match of a group that exists names an existing group. */
  lemma LinearMatchNamesGroup(groups: Groups, r: Record, windowMs: int)
    ensures LinearMatch(groups, r, windowMs).Some? ==> LinearMatch(groups, r, windowMs).value.group in groups
  {}

  lemma SpannedGroups(records: seq<Record>)
    ensures Spanned(GroupMap(records))
  {
    forall k | k in KeysOf(records) ensures GroupOf(records, k).startedMs <= GroupOf(records, k).endedMs {
      var r :| r in records && KeyOf(r) == Some(k);
      MembersExactly(records, k, r);
      GroupSummarises(k, Members(records, k));
    }
  }

  lemma KeysAppend(records: seq<Record>, r: Record)
    ensures KeysOf(records + [r]) == KeysOf(records) + if KeyOf(r).Some? then {KeyOf(r).value} else {}
  {
    assert forall x :: x in records + [r] <==> x in records || x == r;
  }

  lemma FreshKeyIsNewGroup(records: seq<Record>, k: GroupKey)
    requires k !in KeysOf(records)
    ensures GroupOf(records, k) == NewGroup(k)
  {
    if Members(records, k) != [] {
      MembersExactly(records, k, Members(records, k)[0]);
    }
  }

  /** The dictionary of accumulators after a prefix of the stream. */
  ghost predicate Holds(groups: map<GroupKey, SessionGroup>, order: seq<GroupKey>, prefix: seq<Record>)
    reads groups.Values
  {
    && groups.Keys == KeysOf(prefix)
    && (forall k :: k in groups <==> k in order)
    && (forall a, b :: 0 <= a < b < |order| ==> order[a] != order[b])
    && (forall k :: k in groups ==> groups[k].View() == GroupOf(prefix, k))
    && (forall k, c :: k in groups && c in groups && k != c ==> groups[k] != groups[c])
  }

  /** groups.get(key), inserting a fresh accumulator when the key is new. */
  method Intern(groups: map<GroupKey, SessionGroup>, order: seq<GroupKey>, key: GroupKey, ghost prefix: seq<Record>)
    returns (groups': map<GroupKey, SessionGroup>, order': seq<GroupKey>)
    requires Holds(groups, order, prefix)
    ensures key in groups' && groups'.Keys == groups.Keys + {key}
    ensures forall k :: k in groups' <==> k in order'
    ensures forall a, b :: 0 <= a < b < |order'| ==> order'[a] != order'[b]
    ensures forall k :: k in groups' ==> groups'[k].View() == GroupOf(prefix, k)
    ensures forall k, c :: k in groups' && c in groups' && k != c ==> groups'[k] != groups'[c]
    ensures fresh(groups'.Values - groups.Values)
  {
    groups', order' := groups, order;
    if key !in groups {
      FreshKeyIsNewGroup(prefix, key);
      var g := new SessionGroup(key);
      groups' := groups[key := g];
      order' := order + [key];
    }
  }

  /** `next` is `prefix` with one more record, which belongs to group `key`. */
  ghost predicate Extends(prefix: seq<Record>, next: seq<Record>, key: Option<GroupKey>, r: Record) {
    && KeysOf(next) == KeysOf(prefix) + (if key.Some? then {key.value} else {})
    && (key.Some? ==> GroupOf(next, key.value) == Absorb(GroupOf(prefix, key.value), r))
    && forall k :: key != Some(k) ==> GroupOf(next, k) == GroupOf(prefix, k)
  }

  lemma NextRecord(records: seq<Record>, i: nat)
    requires i < |records|
    ensures Extends(records[..i], records[..i + 1], KeyOf(records[i]), records[i])
    ensures RouterRecords(records[..i + 1])
            == RouterRecords(records[..i]) + if IsRouterRecord(records[i]) then [records[i]] else []
  {
    assert records[..i + 1] == records[..i] + [records[i]];
    assert records[..i + 1][..i] == records[..i];
    KeysAppend(records[..i], records[i]);
    forall k
      ensures GroupOf(records[..i + 1], k)
              == if KeyOf(records[i]) == Some(k) then Absorb(GroupOf(records[..i], k), records[i])
                 else GroupOf(records[..i], k)
    {
      MembersAppend(records[..i], records[i], k);
    }
  }

  /** The accumulator of an existing key takes one record; the others are untouched. */
  method AbsorbInto(groups: map<GroupKey, SessionGroup>, order: seq<GroupKey>, key: GroupKey, r: Record,
                    ghost prefix: seq<Record>, ghost next: seq<Record>)
    requires key in groups && groups.Keys == KeysOf(next) && Extends(prefix, next, Some(key), r)
    requires forall k :: k in groups <==> k in order
    requires forall a, b :: 0 <= a < b < |order| ==> order[a] != order[b]
    requires forall k :: k in groups ==> groups[k].View() == GroupOf(prefix, k)
    requires forall k, c :: k in groups && c in groups && k != c ==> groups[k] != groups[c]
    modifies groups.Values
    ensures Holds(groups, order, next)
  {
    var g := groups[key];
    assert g in groups.Values;
    g.AbsorbRecord(r);
  }

  method AddRecord(groups: map<GroupKey, SessionGroup>, order: seq<GroupKey>, key: Option<GroupKey>, r: Record,
                   ghost prefix: seq<Record>, ghost next: seq<Record>)
    returns (groups': map<GroupKey, SessionGroup>, order': seq<GroupKey>)
    requires Holds(groups, order, prefix) && Extends(prefix, next, key, r)
    modifies groups.Values
    ensures Holds(groups', order', next) && fresh(groups'.Values - groups.Values)
  {
    groups', order' := groups, order;
    if key.Some? {
      groups', order' := Intern(groups, order, key.value, prefix);
      AbsorbInto(groups', order', key.value, r, prefix, next);
    }
  }

  /** One record of the stream: collected as router traffic, or absorbed by its group. */
  method AddNext(groups: map<GroupKey, SessionGroup>, order: seq<GroupKey>, routers: seq<Record>, records: seq<Record>,
                 i: nat)
    returns (groups': map<GroupKey, SessionGroup>, order': seq<GroupKey>, routers': seq<Record>)
    requires i < |records| && Holds(groups, order, records[..i]) && routers == RouterRecords(records[..i])
    modifies groups.Values
    ensures Holds(groups', order', records[..i + 1]) && fresh(groups'.Values - groups.Values)
    ensures routers' == RouterRecords(records[..i + 1])
  {
    NextRecord(records, i);
    routers' := if IsRouterRecord(records[i]) then routers + [records[i]] else routers;
    groups', order' := AddRecord(groups, order, KeyOf(records[i]), records[i], records[..i], records[..i + 1]);
  }

  /** Groups the records of a stream, keeping the dictionary's insertion order. */
  method GroupRecords(records: seq<Record>) returns (views: Groups, order: seq<GroupKey>, routers: seq<Record>)
    ensures views == GroupMap(records) && Enumerates(order, views)
    ensures routers == RouterRecords(records)
  {
    var groups: map<GroupKey, SessionGroup> := map[];
    order, routers := [], [];
    for i := 0 to |records|
      invariant Holds(groups, order, records[..i]) && fresh(groups.Values)
      invariant routers == RouterRecords(records[..i])
    {
      groups, order, routers := AddNext(groups, order, routers, records, i);
    }
    assert records[..|records|] == records;
    views := Views(groups, order, records);
  }

  method Views(groups: map<GroupKey, SessionGroup>, order: seq<GroupKey>,
               ghost records: seq<Record>) returns (views: Groups)
    requires Holds(groups, order, records)
    ensures views == GroupMap(records) && Enumerates(order, views)
  {
    views := map k | k in groups :: groups[k].View();
    assert views.Keys == KeysOf(records);
    assert forall k :: k in views ==> views[k] == GroupOf(records, k);
  }

  lemma NextLink(groups: Groups, rs: seq<Record>, i: nat, windowMs: int, links: seq<Link>, unmatched: nat)
    requires i < |rs| && LinksFor(groups, rs[..i], windowMs, links, unmatched)
    ensures match LinearMatch(groups, rs[i], windowMs)
            case None => LinksFor(groups, rs[..i + 1], windowMs, links, unmatched + 1)
            case Some(c) =>
              && c.group in groups
              && LinksFor(groups, rs[..i + 1], windowMs, links + [LinkFor(groups, rs[i], c)], unmatched)
  {
    assert rs[..i + 1][..i] == rs[..i] && rs[..i + 1][i] == rs[i];
    LinearMatchNamesGroup(groups, rs[i], windowMs);
    match LinearMatch(groups, rs[i], windowMs)
    case None =>
    case Some(c) =>
      var all := links + [LinkFor(groups, rs[i], c)];
      assert all[..|links|] == links;
  }

  /** One router request: a link or one more unmatched request. */
  method MatchNext(groups: Groups, ix: Indexes, sorted: seq<Record>, i: nat, windowMs: int, links: seq<Link>,
                   unmatched: nat)
    returns (links': seq<Link>, unmatched': nat)
    requires i < |sorted| && Spanned(groups) && IndexesFor(ix, groups)
    requires LinksFor(groups, sorted[..i], windowMs, links, unmatched)
    ensures LinksFor(groups, sorted[..i + 1], windowMs, links', unmatched')
  {
    var choice := MatchRouter(sorted[i], ix, groups, windowMs);
    NextLink(groups, sorted, i, windowMs, links, unmatched);
    links', unmatched' := links, unmatched;
    match choice
    case None => unmatched' := unmatched + 1;
    case Some(c) => links' := links + [LinkFor(groups, sorted[i], c)];
  }

  method MatchAll(groups: Groups, order: seq<GroupKey>, routers: seq<Record>, windowMs: int)
    returns (links: seq<Link>, unmatched: nat)
    requires Spanned(groups) && Enumerates(order, groups)
    ensures LinksFor(groups, SortRouters(routers), windowMs, links, unmatched)
  {
    var ix := BuildIndexes(groups, order);
    var sorted := SortRouters(routers);
    links, unmatched := [], 0;
    for i := 0 to |sorted|
      invariant LinksFor(groups, sorted[..i], windowMs, links, unmatched)
    {
      links, unmatched := MatchNext(groups, ix, sorted, i, windowMs, links, unmatched);
    }
    assert sorted[..|sorted|] == sorted;
  }

  /** One bucket per group, in key order. */
  ghost predicate BucketsOf(groups: Groups, sessions: seq<SessionBucket>) {
    && (forall b :: b in sessions ==> b.key in groups && b.group == groups[b.key])
    && (forall k :: k in groups ==> SessionBucket(k, groups[k]) in sessions)
    && (forall i, j :: 0 <= i < j < |sessions| ==> Text.PairBefore(sessions[i].key, sessions[j].key))
  }

  method SortedBuckets(groups: Groups, order: seq<GroupKey>) returns (sessions: seq<SessionBucket>)
    requires Enumerates(order, groups)
    ensures BucketsOf(groups, sessions)
  {
    var keys := SortedKeys(order);
    assert forall k :: k in keys <==> k in groups;
    assert forall i :: 0 <= i < |keys| ==> keys[i] in keys;
    sessions := seq(|keys|, i requires 0 <= i < |keys| && keys[i] in groups => SessionBucket(keys[i], groups[keys[i]]));
    forall k | k in groups ensures SessionBucket(k, groups[k]) in sessions {
      assert k in keys;
      var i :| 0 <= i < |keys| && keys[i] == k;
      assert sessions[i] == SessionBucket(k, groups[k]);
    }
  }

  ghost function ProjectPaths(groups: Groups): set<string> {
    set k | k in groups && groups[k].projectPath != "" :: groups[k].projectPath
  }

  /** One bucket per group in key order, and one verdict per router request. */
  method CorrelateRecords(records: seq<Record>, windowMs: int) returns (result: CorrelateResult)
    ensures BucketsOf(GroupMap(records), result.sessions)
    ensures LinksFor(GroupMap(records), SortRouters(RouterRecords(records)), windowMs, result.links, result.unmatched)
    ensures InRequestOrder(SortRouters(RouterRecords(records)))
    ensures |result.links| + result.unmatched == |RouterRecords(records)|
    ensures result.projectPaths == ProjectPaths(GroupMap(records))
  {
    var groups, order, routers := GroupRecords(records);
    SpannedGroups(records);
    var sessions := SortedBuckets(groups, order);
    var links, unmatched := MatchAll(groups, order, routers, windowMs);
    LinksConserveRequests(groups, SortRouters(routers), windowMs, links, unmatched);
    SortRoutersPermutes(routers);
    SortRoutersOrders(routers);
    var paths := set k | k in groups && groups[k].projectPath != "" :: groups[k].projectPath;
    result := CorrelateResult(sessions, links, unmatched, paths);
  }
}
