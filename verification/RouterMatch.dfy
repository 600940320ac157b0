/**
 Tiered matching of router requests to session groups.  `LinearMatch` is the
 plain scan over all groups with the exact interval test; `BuildIndexes` and
 `MatchRouter` are the indexed form (id lists, and midpoint-sorted buckets
 searched by a widened bisect) that must agree with it on every input.
 */
module RouterMatch {
  import opened Wrappers
  import opened Records
  import opened SessionGroups
  import Text

  type Groups = map<GroupKey, Group>

  function Elems(gkeys: seq<GroupKey>): set<GroupKey> { set k | k in gkeys }

  // ----- the plain scan -----

  /** Every id a group answers to. */
  function IdsOf(g: Group): set<string> {
    ({g.nativeId} + g.memberNativeIds + g.memberRawIds) - {""}
  }

  predicate SharesId(g: Group, ids: set<string>) { exists id :: id in ids && id in IdsOf(g) }

  function RouterIds(r: Record): set<string> {
    (if r.nativeId != "" then {r.nativeId} else {}) + r.metaIds
  }

  /** Which groups an index key stands for. */
  type Selector = (string, Group) -> bool

  /** Distance of an instant to the group's span; 0 inside it. */
  function Distance(g: Group, ts: int): int {
    if ts < g.startedMs then g.startedMs - ts else if ts > g.endedMs then ts - g.endedMs else 0
  }

  predicate ByModel(key: string, g: Group) { key != "" && g.model == key }

  predicate ByFingerprint(key: string, g: Group) { g.projectPath != "" && key in g.fingerprints }

  ghost function InWindow(groups: Groups, key: string, sel: Selector, ts: int, windowMs: int): set<GroupKey> {
    set k | k in groups && sel(key, groups[k]) && Distance(groups[k], ts) <= windowMs
  }

  /** Tie-break: earliest start, then group key. */
  predicate PickBefore(groups: Groups, a: GroupKey, b: GroupKey)
    requires a in groups && b in groups
  {
    groups[a].startedMs < groups[b].startedMs ||
    (groups[a].startedMs == groups[b].startedMs && Text.PairBefore(a, b))
  }

  ghost predicate IsBest(groups: Groups, among: set<GroupKey>, k: GroupKey)
    requires among <= groups.Keys
  {
    k in among && forall c :: c in among && c != k ==> PickBefore(groups, k, c)
  }

  /** The one project every candidate that has a project agrees on. */
  ghost predicate AgreedProject(groups: Groups, among: set<GroupKey>, p: string)
    requires among <= groups.Keys
  {
    && p != "" && (exists k :: k in among && groups[k].projectPath == p)
    && forall k :: k in among ==> groups[k].projectPath == "" || groups[k].projectPath == p
  }

  ghost function InProject(groups: Groups, among: set<GroupKey>, p: string): set<GroupKey>
    requires among <= groups.Keys
  {
    set k | k in among && groups[k].projectPath == p
  }

  datatype Choice = Choice(tier: nat, group: GroupKey)

  ghost function BestOf(groups: Groups, among: set<GroupKey>): GroupKey
    requires among <= groups.Keys && among != {}
    ensures IsBest(groups, among, BestOf(groups, among))
  {
    BestExists(groups, among);
    var k :| IsBest(groups, among, k);
    k
  }

  lemma {:induction false} BestExists(groups: Groups, among: set<GroupKey>)
    requires among <= groups.Keys && among != {}
    ensures exists k :: IsBest(groups, among, k)
    decreases among
  {
    var c :| c in among;
    var rest := among - {c};
    if rest == {} {
      assert among == {c};
      assert IsBest(groups, among, c);
    } else {
      BestExists(groups, rest);
      var k :| IsBest(groups, rest, k);
      Text.PairBeforeTotal(c, k);
      if PickBefore(groups, c, k) {
        forall d | d in among && d != c ensures PickBefore(groups, c, d) {
          if d != k { PickBeforeTransitive(groups, c, k, d); }
        }
        assert IsBest(groups, among, c);
      } else {
        assert IsBest(groups, among, k);
      }
    }
  }

  lemma PickBeforeTransitive(groups: Groups, a: GroupKey, b: GroupKey, c: GroupKey)
    requires a in groups && b in groups && c in groups
    requires PickBefore(groups, a, b) && PickBefore(groups, b, c)
    ensures PickBefore(groups, a, c)
  {
    if Text.PairBefore(a, b) && Text.PairBefore(b, c) { Text.PairBeforeTransitive(a, b, c); }
  }

  lemma BestUnique(groups: Groups, among: set<GroupKey>, a: GroupKey, b: GroupKey)
    requires among <= groups.Keys && IsBest(groups, among, a) && IsBest(groups, among, b)
    ensures a == b
  {
    Text.PairBeforeTotal(a, b);
  }

  /** The best candidate of the agreed project, when there is exactly one project. */
  ghost function ProjectChoice(groups: Groups, among: set<GroupKey>): Option<GroupKey>
    requires among <= groups.Keys
  {
    if p :| AgreedProject(groups, among, p) then
      var k :| k in among && groups[k].projectPath == p;
      assert k in InProject(groups, among, p);
      Some(BestOf(groups, InProject(groups, among, p)))
    else None
  }

  /** Tier 1 by shared id, tier 2 by model, tier 3 by fingerprint; otherwise no link. */
  ghost function LinearMatch(groups: Groups, r: Record, windowMs: int): Option<Choice> {
    var shared := set k | k in groups && SharesId(groups[k], RouterIds(r));
    var byModel := InWindow(groups, r.model, ByModel, r.ts, windowMs);
    var byPrompt := InWindow(groups, r.fingerprint, ByFingerprint, r.ts, windowMs);
    if shared != {} then Some(Choice(1, BestOf(groups, shared)))
    else if r.model != "" && ProjectChoice(groups, byModel).Some? then
      Some(Choice(2, ProjectChoice(groups, byModel).value))
    else if r.fingerprint != "" && ProjectChoice(groups, byPrompt).Some? then
      Some(Choice(3, ProjectChoice(groups, byPrompt).value))
    else None
  }

  // ----- the indexes -----

  /** Midpoint of the span, rounded down; an end of 0 counts as no end. */
  function Mid(g: Group): int {
    (g.startedMs + (if g.endedMs != 0 then g.endedMs else g.startedMs)) / 2
  }

  function Half(g: Group): int {
    if Mid(g) - g.startedMs > g.endedMs - Mid(g) then Mid(g) - g.startedMs else g.endedMs - Mid(g)
  }

  datatype Bucket = Bucket(mids: seq<int>, pairs: seq<(int, GroupKey)>, maxHalf: int)

  datatype Indexes = Indexes(
    idIndex: map<string, seq<GroupKey>>,
    tier2: map<string, Bucket>,
    tier3: map<string, Bucket>)

  /** Groups as the fold leaves them: no end before the start. */
  ghost predicate Spanned(groups: Groups) {
    forall k :: k in groups ==> groups[k].startedMs <= groups[k].endedMs
  }

  ghost predicate BucketFor(b: Bucket, groups: Groups, key: string, sel: Selector) {
    && |b.mids| == |b.pairs|
    && (forall i :: 0 <= i < |b.pairs| ==>
          b.pairs[i].1 in groups && sel(key, groups[b.pairs[i].1])
          && b.mids[i] == b.pairs[i].0 == Mid(groups[b.pairs[i].1])
          && Half(groups[b.pairs[i].1]) <= b.maxHalf)
    && (forall i, j :: 0 <= i < j < |b.mids| ==> b.mids[i] <= b.mids[j])
    && (forall k :: k in groups && sel(key, groups[k]) ==> exists i :: 0 <= i < |b.pairs| && b.pairs[i].1 == k)
  }

  ghost predicate TierFor(tier: map<string, Bucket>, groups: Groups, sel: Selector) {
    && (forall key :: key in tier ==> BucketFor(tier[key], groups, key, sel))
    && (forall key, k :: k in groups && sel(key, groups[k]) ==> key in tier)
  }

  predicate Has(ix: map<string, seq<GroupKey>>, id: string, k: GroupKey) { id in ix && k in ix[id] }

  ghost predicate IdIndexFor(ix: map<string, seq<GroupKey>>, groups: Groups, done: set<GroupKey>)
    requires done <= groups.Keys
  {
    forall id, k :: Has(ix, id, k) <==> k in done && id in IdsOf(groups[k])
  }

  ghost predicate IndexesFor(ix: Indexes, groups: Groups) {
    && IdIndexFor(ix.idIndex, groups, groups.Keys)
    && TierFor(ix.tier2, groups, ByModel)
    && TierFor(ix.tier3, groups, ByFingerprint)
  }

  /** The widened bisect range contains every in-window midpoint, floored or not. */
  lemma WidenedRangeCovers(g: Group, ts: int, windowMs: int, maxHalf: int)
    requires g.startedMs <= g.endedMs && Half(g) <= maxHalf
    requires Distance(g, ts) <= windowMs
    ensures ts - (windowMs + maxHalf) <= Mid(g) <= ts + (windowMs + maxHalf)
  {}

  /** Half the span rounded down would not be enough: an in-window request is missed by 1 ms. */
  lemma FlooredHalfMisses(windowMs: nat) returns (g: Group, ts: int)
    ensures g.startedMs <= g.endedMs && Distance(g, ts) <= windowMs
    ensures Mid(g) < ts - (windowMs + (g.endedMs - g.startedMs) / 2)
  {
    g := NewGroup(("claude", "s")).(startedMs := 2, endedMs := 3);
    ts := 3 + windowMs;
  }

  // ----- building -----

  /** `order` lists the groups in dictionary order, whatever that is. */
  ghost predicate Enumerates(order: seq<GroupKey>, groups: Groups) {
    && (forall k :: k in groups <==> k in order)
    && (forall i, j :: 0 <= i < j < |order| ==> order[i] != order[j])
  }

  function AddId(ix: map<string, seq<GroupKey>>, id: string, k: GroupKey): map<string, seq<GroupKey>> {
    if id == "" then ix
    else if id !in ix then ix[id := [k]]
    else if k in ix[id] then ix
    else ix[id := ix[id] + [k]]
  }

  lemma AddIdHas(ix: map<string, seq<GroupKey>>, id: string, k: GroupKey, i: string, c: GroupKey)
    ensures Has(AddId(ix, id, k), i, c) <==> Has(ix, i, c) || (i == id && id != "" && c == k)
  {}

  method AddIds(start: map<string, seq<GroupKey>>, ids: set<string>, k: GroupKey)
    returns (ix: map<string, seq<GroupKey>>)
    ensures forall id, c :: Has(ix, id, c) <==> Has(start, id, c) || (id in ids && id != "" && c == k)
  {
    ix := start;
    var todo := ids;
    while todo != {}
      invariant todo <= ids
      invariant forall id, c :: Has(ix, id, c) <==> Has(start, id, c) || (id in ids - todo && id != "" && c == k)
      decreases todo
    {
      var id :| id in todo;
      forall i, c ensures Has(AddId(ix, id, k), i, c) <==> Has(ix, i, c) || (i == id && id != "" && c == k) {
        AddIdHas(ix, id, k, i, c);
      }
      ix := AddId(ix, id, k);
      todo := todo - {id};
    }
  }

  lemma PrefixElems(order: seq<GroupKey>, i: nat, groups: Groups)
    requires Enumerates(order, groups) && i < |order|
    ensures Elems(order[..i + 1]) == Elems(order[..i]) + {order[i]}
    ensures Elems(order[..i]) <= groups.Keys && order[i] in groups
  {
    assert order[i] in order;
    forall k | k in order[..i] ensures k in groups { assert k in order; }
  }

  lemma AllElems(order: seq<GroupKey>, groups: Groups)
    requires Enumerates(order, groups)
    ensures Elems(order[..|order|]) == groups.Keys && Elems(order[..0]) == {}
  {
    assert order[..|order|] == order;
  }

  method BuildIdIndex(groups: Groups, order: seq<GroupKey>) returns (ix: map<string, seq<GroupKey>>)
    requires Enumerates(order, groups)
    ensures IdIndexFor(ix, groups, groups.Keys)
  {
    ix := map[];
    AllElems(order, groups);
    for i := 0 to |order|
      invariant Elems(order[..i]) <= groups.Keys && IdIndexFor(ix, groups, Elems(order[..i]))
    {
      PrefixElems(order, i, groups);
      var g := groups[order[i]];
      ix := AddIds(ix, {g.nativeId} + g.memberNativeIds + g.memberRawIds, order[i]);
    }
  }

  /** What has been collected for one tier so far, before sorting. */
  ghost predicate Collected(raw: map<string, seq<(int, GroupKey)>>, groups: Groups, sel: Selector, done: set<GroupKey>)
    requires done <= groups.Keys
  {
    && (forall key, i :: key in raw && 0 <= i < |raw[key]| ==>
          raw[key][i].1 in done && sel(key, groups[raw[key][i].1]) && raw[key][i].0 == Mid(groups[raw[key][i].1]))
    && (forall key, k :: k in done && sel(key, groups[k]) ==> key in raw && (Mid(groups[k]), k) in raw[key])
  }

  function Collect(raw: map<string, seq<(int, GroupKey)>>, key: string, pair: (int, GroupKey))
    : map<string, seq<(int, GroupKey)>>
  {
    raw[key := (if key in raw then raw[key] else []) + [pair]]
  }

  lemma CollectOne(raw: map<string, seq<(int, GroupKey)>>, groups: Groups, sel: Selector, done: set<GroupKey>,
                   keys: set<string>, k: GroupKey, after: map<string, seq<(int, GroupKey)>>)
    requires done <= groups.Keys && k in groups && Collected(raw, groups, sel, done)
    requires forall key :: sel(key, groups[k]) <==> key in keys
    requires after.Keys == raw.Keys + keys
    requires forall key :: key in after ==>
               after[key] == (if key in raw then raw[key] else []) + (if key in keys then [(Mid(groups[k]), k)] else [])
    ensures Collected(after, groups, sel, done + {k})
  {
    forall key, c | c in done + {k} && sel(key, groups[c])
      ensures key in after && (Mid(groups[c]), c) in after[key]
    {
      if c in done { assert (Mid(groups[c]), c) in raw[key]; }
    }
    forall key, i | key in after && 0 <= i < |after[key]|
      ensures var p := after[key][i]; p.1 in done + {k} && sel(key, groups[p.1]) && p.0 == Mid(groups[p.1])
    {
      if key in raw && i < |raw[key]| { assert after[key][i] == raw[key][i]; }
    }
  }

  method CollectByModel(groups: Groups, order: seq<GroupKey>) returns (raw: map<string, seq<(int, GroupKey)>>)
    requires Enumerates(order, groups)
    ensures Collected(raw, groups, ByModel, groups.Keys)
  {
    raw := map[];
    AllElems(order, groups);
    for i := 0 to |order|
      invariant Elems(order[..i]) <= groups.Keys && Collected(raw, groups, ByModel, Elems(order[..i]))
    {
      PrefixElems(order, i, groups);
      var g := groups[order[i]];
      var after := if g.model != "" then Collect(raw, g.model, (Mid(g), order[i])) else raw;
      CollectOne(raw, groups, ByModel, Elems(order[..i]), if g.model != "" then {g.model} else {}, order[i], after);
      raw := after;
    }
  }

  method CollectByFingerprint(groups: Groups, order: seq<GroupKey>) returns (raw: map<string, seq<(int, GroupKey)>>)
    requires Enumerates(order, groups)
    ensures Collected(raw, groups, ByFingerprint, groups.Keys)
  {
    raw := map[];
    AllElems(order, groups);
    for i := 0 to |order|
      invariant Elems(order[..i]) <= groups.Keys && Collected(raw, groups, ByFingerprint, Elems(order[..i]))
    {
      PrefixElems(order, i, groups);
      var g := groups[order[i]];
      var keys := if g.projectPath != "" then g.fingerprints else {};
      var after := CollectAll(raw, keys, (Mid(g), order[i]));
      CollectOne(raw, groups, ByFingerprint, Elems(order[..i]), keys, order[i], after);
      raw := after;
    }
  }

  method CollectAll(start: map<string, seq<(int, GroupKey)>>, keys: set<string>, pair: (int, GroupKey))
    returns (raw: map<string, seq<(int, GroupKey)>>)
    ensures raw.Keys == start.Keys + keys
    ensures forall key :: key in raw ==>
              raw[key] == (if key in start then start[key] else []) + (if key in keys then [pair] else [])
  {
    raw := start;
    var todo := keys;
    while todo != {}
      invariant todo <= keys && raw.Keys == start.Keys + (keys - todo)
      invariant forall key :: key in raw ==>
                  raw[key] == (if key in start then start[key] else []) + (if key in keys - todo then [pair] else [])
      decreases todo
    {
      var key :| key in todo;
      todo := todo - {key};
      raw := Collect(raw, key, pair);
    }
  }

  // ----- sorting by midpoint -----

  predicate SortedByMid(pairs: seq<(int, GroupKey)>) {
    forall i, j :: 0 <= i < j < |pairs| ==> pairs[i].0 <= pairs[j].0
  }

  function Insert(pair: (int, GroupKey), sorted: seq<(int, GroupKey)>): (r: seq<(int, GroupKey)>)
    requires SortedByMid(sorted)
    ensures |r| == |sorted| + 1
    ensures forall p :: p in r <==> p in sorted || p == pair
    ensures SortedByMid(r)
  {
    if sorted == [] || sorted[|sorted| - 1].0 <= pair.0 then sorted + [pair]
    else
      var n := |sorted| - 1;
      var front := Insert(pair, sorted[..n]);
      assert forall p :: p in sorted <==> p in sorted[..n] || p == sorted[n];
      assert forall p :: p in sorted[..n] ==> p.0 <= sorted[n].0;
      assert forall i :: 0 <= i < |front| ==> front[i] in front && front[i].0 <= sorted[n].0;
      front + [sorted[n]]
  }

  /** sorted(..., key=mid): same length, same elements, ascending midpoints. */
  function SortByMid(pairs: seq<(int, GroupKey)>): (r: seq<(int, GroupKey)>)
    ensures |r| == |pairs| && SortedByMid(r)
    ensures forall p :: p in r <==> p in pairs
  {
    if pairs == [] then []
    else
      var n := |pairs| - 1;
      assert forall p :: p in pairs <==> p in pairs[..n] || p == pairs[n];
      Insert(pairs[n], SortByMid(pairs[..n]))
  }

  method LargestHalf(pairs: seq<(int, GroupKey)>, groups: Groups) returns (maxHalf: int)
    requires forall p :: p in pairs ==> p.1 in groups
    ensures forall p :: p in pairs ==> Half(groups[p.1]) <= maxHalf
  {
    maxHalf := 0;
    for i := 0 to |pairs|
      invariant forall j :: 0 <= j < i ==> pairs[j] in pairs && Half(groups[pairs[j].1]) <= maxHalf
    {
      assert pairs[i] in pairs;
      var half := Half(groups[pairs[i].1]);
      if half > maxHalf { maxHalf := half; }
    }
  }

  method FinalizeBucket(pairs: seq<(int, GroupKey)>, groups: Groups, ghost key: string, ghost sel: Selector)
    returns (b: Bucket)
    requires forall p :: p in pairs ==> p.1 in groups && sel(key, groups[p.1]) && p.0 == Mid(groups[p.1])
    requires forall k :: k in groups && sel(key, groups[k]) ==> (Mid(groups[k]), k) in pairs
    ensures BucketFor(b, groups, key, sel)
  {
    var sorted := SortByMid(pairs);
    var maxHalf := LargestHalf(sorted, groups);
    b := Bucket(seq(|sorted|, i requires 0 <= i < |sorted| => sorted[i].0), sorted, maxHalf);
    forall i | 0 <= i < |b.pairs|
      ensures var p := b.pairs[i];
              p.1 in groups && sel(key, groups[p.1]) && p.0 == Mid(groups[p.1]) && Half(groups[p.1]) <= maxHalf
    {
      assert b.pairs[i] in sorted;
    }
    forall k | k in groups && sel(key, groups[k]) ensures exists i :: 0 <= i < |b.pairs| && b.pairs[i].1 == k {
      assert (Mid(groups[k]), k) in sorted;
    }
  }

  method FinalizeTier(raw: map<string, seq<(int, GroupKey)>>, groups: Groups, ghost sel: Selector)
    returns (tier: map<string, Bucket>)
    requires Collected(raw, groups, sel, groups.Keys)
    ensures TierFor(tier, groups, sel)
  {
    tier := map[];
    var todo := raw.Keys;
    while todo != {}
      invariant todo <= raw.Keys && tier.Keys == raw.Keys - todo
      invariant forall key :: key in tier ==> BucketFor(tier[key], groups, key, sel)
      decreases todo
    {
      var key :| key in todo;
      todo := todo - {key};
      assert forall p :: p in raw[key] ==> exists i :: 0 <= i < |raw[key]| && raw[key][i] == p;
      var b := FinalizeBucket(raw[key], groups, key, sel);
      tier := tier[key := b];
    }
  }

  method BuildIndexes(groups: Groups, order: seq<GroupKey>) returns (ix: Indexes)
    requires Enumerates(order, groups)
    ensures IndexesFor(ix, groups)
  {
    var ids := BuildIdIndex(groups, order);
    var raw2 := CollectByModel(groups, order);
    var raw3 := CollectByFingerprint(groups, order);
    var tier2 := FinalizeTier(raw2, groups, ByModel);
    var tier3 := FinalizeTier(raw3, groups, ByFingerprint);
    ix := Indexes(ids, tier2, tier3);
  }

  // ----- answering -----

  method BisectLeft(a: seq<int>, x: int) returns (lo: nat)
    requires forall i, j :: 0 <= i < j < |a| ==> a[i] <= a[j]
    ensures lo <= |a|
    ensures (forall i :: 0 <= i < lo ==> a[i] < x) && (forall i :: lo <= i < |a| ==> x <= a[i])
  {
    lo := 0;
    var hi := |a|;
    while lo < hi
      invariant lo <= hi <= |a|
      invariant (forall i :: 0 <= i < lo ==> a[i] < x) && (forall i :: hi <= i < |a| ==> x <= a[i])
    {
      var mid := (lo + hi) / 2;
      if a[mid] < x { lo := mid + 1; } else { hi := mid; }
    }
  }

  method BisectRight(a: seq<int>, x: int) returns (lo: nat)
    requires forall i, j :: 0 <= i < j < |a| ==> a[i] <= a[j]
    ensures lo <= |a|
    ensures (forall i :: 0 <= i < lo ==> a[i] <= x) && (forall i :: lo <= i < |a| ==> x < a[i])
  {
    lo := 0;
    var hi := |a|;
    while lo < hi
      invariant lo <= hi <= |a|
      invariant (forall i :: 0 <= i < lo ==> a[i] <= x) && (forall i :: hi <= i < |a| ==> x < a[i])
    {
      var mid := (lo + hi) / 2;
      if x < a[mid] { hi := mid; } else { lo := mid + 1; }
    }
  }

  /** Candidates whose span is within the window: a midpoint prefilter, then the exact test. */
  method WindowCandidates(b: Bucket, ts: int, windowMs: int, groups: Groups, ghost key: string, ghost sel: Selector)
    returns (out: seq<GroupKey>)
    requires Spanned(groups) && BucketFor(b, groups, key, sel)
    ensures Elems(out) == InWindow(groups, key, sel, ts, windowMs)
  {
    var reach := windowMs + b.maxHalf;
    var lo := BisectLeft(b.mids, ts - reach);
    var hi := BisectRight(b.mids, ts + reach);
    out := [];
    var i := lo;
    while i < hi
      invariant lo <= i && (i <= hi || hi < lo)
      invariant forall k :: k in out ==> k in InWindow(groups, key, sel, ts, windowMs)
      invariant forall j :: lo <= j < i && j < hi && Distance(groups[b.pairs[j].1], ts) <= windowMs ==>
                  b.pairs[j].1 in out
      decreases hi - i
    {
      var k := b.pairs[i].1;
      if Distance(groups[k], ts) <= windowMs { out := out + [k]; }
      i := i + 1;
    }
    CandidatesCover(b, ts, windowMs, groups, key, sel, lo, hi, out);
  }

  /** Whatever the prefilter left outside [lo, hi) cannot be in the window. */
  lemma CandidatesCover(b: Bucket, ts: int, windowMs: int, groups: Groups, key: string, sel: Selector, lo: nat, hi: nat,
                        out: seq<GroupKey>)
    requires Spanned(groups) && BucketFor(b, groups, key, sel) && lo <= |b.mids| && hi <= |b.mids|
    requires forall i :: 0 <= i < lo ==> b.mids[i] < ts - (windowMs + b.maxHalf)
    requires forall i :: hi <= i < |b.mids| ==> ts + (windowMs + b.maxHalf) < b.mids[i]
    requires forall j :: lo <= j < hi && Distance(groups[b.pairs[j].1], ts) <= windowMs ==> b.pairs[j].1 in out
    ensures forall k :: k in InWindow(groups, key, sel, ts, windowMs) ==> k in out
  {
    forall k | k in InWindow(groups, key, sel, ts, windowMs) ensures k in out {
      var j :| 0 <= j < |b.pairs| && b.pairs[j].1 == k;
      WidenedRangeCovers(groups[k], ts, windowMs, b.maxHalf);
    }
  }

  /** sorted(candidates, key=(started, source, key))[0] */
  function StablePick(groups: Groups, gkeys: seq<GroupKey>): (best: GroupKey)
    requires gkeys != [] && forall k :: k in gkeys ==> k in groups
    ensures IsBest(groups, Elems(gkeys), best)
  {
    if |gkeys| == 1 then gkeys[0]
    else
      var rest := StablePick(groups, gkeys[1..]);
      assert forall k :: k in gkeys <==> k == gkeys[0] || k in gkeys[1..];
      Text.PairBeforeTotal(gkeys[0], rest);
      assert forall d :: d in gkeys && d != gkeys[0] && d != rest && PickBefore(groups, gkeys[0], rest) ==>
          PickBefore(groups, gkeys[0], d) by {
        forall d | d in gkeys && d != gkeys[0] && d != rest && PickBefore(groups, gkeys[0], rest)
          ensures PickBefore(groups, gkeys[0], d)
        {
          PickBeforeTransitive(groups, gkeys[0], rest, d);
        }
      }
      if PickBefore(groups, gkeys[0], rest) then gkeys[0] else rest
  }

  lemma PickIsBest(groups: Groups, gkeys: seq<GroupKey>, among: set<GroupKey>)
    requires gkeys != [] && Elems(gkeys) == among && among <= groups.Keys
    ensures StablePick(groups, gkeys) == BestOf(groups, among)
  {
    assert forall k :: k in gkeys ==> k in among;
    BestUnique(groups, among, StablePick(groups, gkeys), BestOf(groups, among));
  }

  /** The single project the candidates agree on, else None. */
  method UnambiguousProject(groups: Groups, gkeys: seq<GroupKey>) returns (p: Option<string>)
    requires forall k :: k in gkeys ==> k in groups
    ensures p.Some? ==> AgreedProject(groups, Elems(gkeys), p.value)
    ensures p.None? ==> forall q :: !AgreedProject(groups, Elems(gkeys), q)
  {
    var projects := (set k | k in gkeys :: groups[k].projectPath) - {""};
    assert forall k :: k in gkeys && groups[k].projectPath != "" ==> groups[k].projectPath in projects;
    forall q | AgreedProject(groups, Elems(gkeys), q) ensures projects == {q} {}
    if |projects| != 1 { return None; }
    var q :| q in projects;
    forall x | x in projects ensures x == q { OnlyMember(projects, q, x); }
    return Some(q);
  }

  lemma OnlyMember(s: set<string>, a: string, b: string)
    requires |s| == 1 && a in s && b in s
    ensures a == b
  {
    assert |s - {a}| == 0;
    assert s - {a} == {};
  }

  lemma ProjectChoiceIs(groups: Groups, among: set<GroupKey>, p: string)
    requires among <= groups.Keys && AgreedProject(groups, among, p)
    ensures InProject(groups, among, p) != {}
    ensures ProjectChoice(groups, among) == Some(BestOf(groups, InProject(groups, among, p)))
  {
    var k :| k in among && groups[k].projectPath == p;
    assert k in InProject(groups, among, p);
    forall q | AgreedProject(groups, among, q) ensures q == p {}
  }

  /** One windowed tier: candidates, ambiguity guard, stable pick. */
  method MatchWindowed(tier: map<string, Bucket>, key: string, ts: int, windowMs: int, groups: Groups,
                       ghost sel: Selector)
    returns (choice: Option<GroupKey>)
    requires Spanned(groups) && TierFor(tier, groups, sel)
    ensures choice == ProjectChoice(groups, InWindow(groups, key, sel, ts, windowMs))
  {
    ghost var among := InWindow(groups, key, sel, ts, windowMs);
    if key !in tier {
      assert among == {};
      return None;
    }
    var candidates := WindowCandidates(tier[key], ts, windowMs, groups, key, sel);
    assert forall k :: k in candidates <==> k in among;
    var project := UnambiguousProject(groups, candidates);
    if project.None? { return None; }
    var p := project.value;
    ProjectChoiceIs(groups, among, p);
    var mine := KeepProject(groups, candidates, p);
    assert Elems(mine) == InProject(groups, among, p);
    PickIsBest(groups, mine, InProject(groups, among, p));
    return Some(StablePick(groups, mine));
  }

  function KeepProject(groups: Groups, gkeys: seq<GroupKey>, p: string): (r: seq<GroupKey>)
    requires forall k :: k in gkeys ==> k in groups
    ensures forall k :: k in r <==> k in gkeys && groups[k].projectPath == p
  {
    if gkeys == [] then []
    else (if groups[gkeys[0]].projectPath == p then [gkeys[0]] else []) + KeepProject(groups, gkeys[1..], p)
  }

  /** Groups sharing an id with the request. */
  method SharedIdKeys(idIndex: map<string, seq<GroupKey>>, ids: set<string>,
                      ghost groups: Groups) returns (gkeys: seq<GroupKey>)
    requires IdIndexFor(idIndex, groups, groups.Keys)
    ensures Elems(gkeys) == (set k | k in groups && SharesId(groups[k], ids))
  {
    gkeys := [];
    var todo := ids;
    while todo != {}
      invariant todo <= ids
      invariant forall k :: k in gkeys <==> k in groups && SharesId(groups[k], ids - todo)
      decreases todo
    {
      var id :| id in todo;
      var found := if id in idIndex then idIndex[id] else [];
      forall k ensures k in found <==> k in groups && id in IdsOf(groups[k]) {
        assert Has(idIndex, id, k) <==> k in groups && id in IdsOf(groups[k]);
      }
      forall k | k in groups
        ensures SharesId(groups[k], ids - (todo - {id})) <==> SharesId(groups[k], ids - todo) || id in IdsOf(groups[k])
      {
        assert ids - (todo - {id}) == (ids - todo) + {id};
      }
      gkeys := AppendNew(gkeys, found);
      todo := todo - {id};
    }
    assert ids - todo == ids;
  }

  method AppendNew(start: seq<GroupKey>, found: seq<GroupKey>) returns (gkeys: seq<GroupKey>)
    ensures forall k :: k in gkeys <==> k in start || k in found
  {
    gkeys := start;
    for i := 0 to |found|
      invariant forall k :: k in gkeys <==> k in start || k in found[..i]
    {
      if found[i] !in gkeys { gkeys := gkeys + [found[i]]; }
    }
  }

  /** The indexed matcher makes the same choice as the plain scan. */
  method MatchRouter(r: Record, ix: Indexes, groups: Groups, windowMs: int) returns (choice: Option<Choice>)
    requires Spanned(groups) && IndexesFor(ix, groups)
    ensures choice == LinearMatch(groups, r, windowMs)
  {
    var shared := SharedIdKeys(ix.idIndex, RouterIds(r), groups);
    ghost var sharedSet := set k | k in groups && SharesId(groups[k], RouterIds(r));
    if shared != [] {
      assert shared[0] in sharedSet;
      assert forall k :: k in shared ==> k in sharedSet;
      PickIsBest(groups, shared, sharedSet);
      return Some(Choice(1, StablePick(groups, shared)));
    }
    assert sharedSet == {};
    if r.model != "" {
      var byModel := MatchWindowed(ix.tier2, r.model, r.ts, windowMs, groups, ByModel);
      if byModel.Some? { return Some(Choice(2, byModel.value)); }
    }
    if r.fingerprint != "" {
      var byPrompt := MatchWindowed(ix.tier3, r.fingerprint, r.ts, windowMs, groups, ByFingerprint);
      if byPrompt.Some? { return Some(Choice(3, byPrompt.value)); }
    }
    return None;
  }
}
