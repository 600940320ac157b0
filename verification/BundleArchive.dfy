/**
 The archive of imported bundles: three tables with primary and foreign keys,
 filled by one transaction per bundle.
 */
module BundleArchive {
  import opened Wrappers
  import opened JsonText
  import opened JsonValue
  import opened BundleDocument
  import opened BundleImport

  datatype BundleRow = BundleRow(exportedMs: int, sessionCount: nat, turnCount: nat, digest: Text)
  datatype SessionRow = SessionRow(started: Option<int>, ended: Option<int>, count: int)
  datatype TurnRow = TurnRow(session: Text, ts: Option<int>)

  type Key = (Text, Text)

  function IntField(entries: seq<(Text, Json)>, key: Text): Option<int> {
    var v := Get(entries, key);
    if v.Some? && v.value.Int? then Some(v.value.n) else None
  }

  function EntriesOf(v: Json): seq<(Text, Json)> { if v.Obj? then v.entries else [] }

  function ToSession(s: Json): SessionRow {
    var e := EntriesOf(s);
    var count := IntField(e, RECORD_COUNT);
    SessionRow(IntField(e, STARTED_MS), IntField(e, ENDED_MS), if count.Some? then count.value else 0)
  }

  function ToTurn(sid: Text, t: Json): TurnRow { TurnRow(sid, IntField(EntriesOf(t), TIMESTAMP_MS)) }

  function SessionsOf(payload: Json): seq<Json>
    requires Accepts(payload)
  {
    Get(payload.entries, SESSIONS).value.items
  }

  function BundleIdOf(payload: Json): Text
    requires Accepts(payload)
  {
    Get(payload.entries, BUNDLE_ID).value.s
  }

  // ----- the rows a payload adds -----

  function PutSessions(m: map<Key, SessionRow>, b: Text, items: seq<Json>, n: nat): map<Key, SessionRow>
    requires n <= |items|
  {
    if n == 0 then m else PutSessions(m, b, items, n - 1)[(b, IdOf(items[n - 1])) := ToSession(items[n - 1])]
  }

  function PutTurns(m: map<Key, TurnRow>, b: Text, sid: Text, ts: seq<Json>, n: nat): map<Key, TurnRow>
    requires n <= |ts|
  {
    if n == 0 then m else PutTurns(m, b, sid, ts, n - 1)[(b, IdOf(ts[n - 1])) := ToTurn(sid, ts[n - 1])]
  }

  function PutAllTurns(m: map<Key, TurnRow>, b: Text, items: seq<Json>, n: nat): map<Key, TurnRow>
    requires n <= |items|
  {
    if n == 0 then m
    else
      var ts := TurnsOf(items[n - 1]);
      PutTurns(PutAllTurns(m, b, items, n - 1), b, IdOf(items[n - 1]), ts, |ts|)
  }

  function KeysOf(b: Text, items: seq<Json>): set<Key> { set v | v in items :: (b, IdOf(v)) }

  lemma KeysAppend(b: Text, xs: seq<Json>, ys: seq<Json>)
    ensures KeysOf(b, xs + ys) == KeysOf(b, xs) + KeysOf(b, ys)
  {
    assert forall v :: v in xs + ys <==> v in xs || v in ys;
  }

  lemma KeysSnoc(b: Text, items: seq<Json>, n: nat)
    requires n < |items|
    ensures KeysOf(b, items[..n + 1]) == KeysOf(b, items[..n]) + {(b, IdOf(items[n]))}
  {
    assert items[..n + 1] == items[..n] + [items[n]];
    KeysAppend(b, items[..n], [items[n]]);
  }

  lemma {:induction false} PutSessionsKeys(m: map<Key, SessionRow>, b: Text, items: seq<Json>, n: nat)
    requires n <= |items|
    ensures PutSessions(m, b, items, n).Keys == m.Keys + KeysOf(b, items[..n])
    ensures forall k :: k in m && k.0 != b ==> PutSessions(m, b, items, n)[k] == m[k]
    decreases n
  {
    if n > 0 {
      PutSessionsKeys(m, b, items, n - 1);
      KeysSnoc(b, items, n - 1);
    }
  }

  lemma {:induction false} PutTurnsKeys(m: map<Key, TurnRow>, b: Text, sid: Text, ts: seq<Json>, n: nat)
    requires n <= |ts|
    ensures PutTurns(m, b, sid, ts, n).Keys == m.Keys + KeysOf(b, ts[..n])
    ensures forall k :: k in PutTurns(m, b, sid, ts, n) ==>
              || (k in m && PutTurns(m, b, sid, ts, n)[k] == m[k])
              || (k.0 == b && PutTurns(m, b, sid, ts, n)[k].session == sid)
    ensures forall k :: k in m && k.0 != b ==> PutTurns(m, b, sid, ts, n)[k] == m[k]
    decreases n
  {
    if n > 0 {
      PutTurnsKeys(m, b, sid, ts, n - 1);
      KeysSnoc(b, ts, n - 1);
    }
  }

  lemma {:induction false} PutAllTurnsKeys(m: map<Key, TurnRow>, b: Text, items: seq<Json>, n: nat)
    requires n <= |items|
    ensures PutAllTurns(m, b, items, n).Keys == m.Keys + KeysOf(b, AllTurns(items, n))
    ensures forall k :: k in PutAllTurns(m, b, items, n) ==>
              (k in m && PutAllTurns(m, b, items, n)[k] == m[k])
              || (k.0 == b && (b, PutAllTurns(m, b, items, n)[k].session) in KeysOf(b, items[..n]))
    ensures forall k :: k in m && k.0 != b ==> PutAllTurns(m, b, items, n)[k] == m[k]
    decreases n
  {
    if n > 0 {
      var ts := TurnsOf(items[n - 1]);
      PutAllTurnsKeys(m, b, items, n - 1);
      PutTurnsKeys(PutAllTurns(m, b, items, n - 1), b, IdOf(items[n - 1]), ts, |ts|);
      assert ts[..|ts|] == ts;
      KeysAppend(b, AllTurns(items, n - 1), ts);
      KeysSnoc(b, items, n - 1);
    }
  }

  lemma NewKey(b: Text, items: seq<Json>, n: nat)
    requires n < |items| && UniqueIds(items)
    ensures (b, IdOf(items[n])) !in KeysOf(b, items[..n])
  {
    forall v | v in items[..n] ensures IdOf(v) != IdOf(items[n]) {
      var i :| 0 <= i < n && items[i] == v;
    }
  }

  lemma DistinctStep(b: Text, items: seq<Json>, n: nat)
    requires n < |items| && UniqueIds(items)
    ensures |KeysOf(b, items[..n + 1])| == |KeysOf(b, items[..n])| + 1
  {
    KeysSnoc(b, items, n);
    NewKey(b, items, n);
    OneMore(KeysOf(b, items[..n]), (b, IdOf(items[n])));
  }

  lemma {:induction false} DistinctKeys(b: Text, items: seq<Json>, n: nat)
    requires n <= |items| && UniqueIds(items)
    ensures |KeysOf(b, items[..n])| == n
    decreases n
  {
    if n == 0 {
      assert KeysOf(b, items[..n]) == {};
    } else {
      DistinctKeys(b, items, n - 1);
      DistinctStep(b, items, n - 1);
    }
  }

  lemma OneMore(keys: set<Key>, k: Key)
    requires k !in keys
    ensures |keys + {k}| == |keys| + 1
  {}

  /** The keys of one bundle. */
  function Of(b: Text, keys: set<Key>): set<Key> { set k | k in keys && k.0 == b }

  lemma OnlyNewKeys(b: Text, before: set<Key>, items: seq<Json>)
    requires forall k :: k in before ==> k.0 != b
    ensures Of(b, before + KeysOf(b, items)) == KeysOf(b, items)
    ensures forall c :: c != b ==> Of(c, before + KeysOf(b, items)) == Of(c, before)
  {}

  // ----- the tables -----

  datatype Tables = Tables(bundles: map<Text, BundleRow>, sessions: map<Key, SessionRow>, turns: map<Key, TurnRow>)

  ghost predicate KeysHold(t: Tables) {
    && (forall k :: k in t.sessions ==> k.0 in t.bundles)
    && (forall k :: k in t.turns ==> (k.0, t.turns[k].session) in t.sessions)
  }

  ghost predicate CountsHold(t: Tables) {
    forall b :: b in t.bundles ==>
      t.bundles[b].sessionCount == |Of(b, t.sessions.Keys)| && t.bundles[b].turnCount == |Of(b, t.turns.Keys)|
  }

  function RowFor(payload: Json, digest: Text): BundleRow
    requires Accepts(payload)
  {
    BundleRow(Get(payload.entries, EXPORTED_MS).value.n, |SessionsOf(payload)|,
              |AllTurns(SessionsOf(payload), |SessionsOf(payload)|)|, digest)
  }

  function Added(t: Tables, payload: Json, digest: Text): Tables
    requires Accepts(payload)
  {
    var b, items := BundleIdOf(payload), SessionsOf(payload);
    Tables(t.bundles[b := RowFor(payload, digest)],
           PutSessions(t.sessions, b, items, |items|),
           PutAllTurns(t.turns, b, items, |items|))
  }

  lemma IdsDiffer(payload: Json, n: nat)
    requires Accepts(payload) && n <= |SessionsOf(payload)|
    ensures UniqueIds(SessionsOf(payload)) && UniqueIds(AllTurns(SessionsOf(payload), n))
  {
    var items := SessionsOf(payload);
    GoodPrefix(items, n, |items|);
    assert items[..|items|] == items;
  }

  /** The tables after the manifest and the first `n` sessions. */
  function Partly(t: Tables, b: Text, row: BundleRow, items: seq<Json>, n: nat): Tables
    requires n <= |items|
  {
    Tables(t.bundles[b := row], PutSessions(t.sessions, b, items, n), PutAllTurns(t.turns, b, items, n))
  }

  lemma FreshBundle(t: Tables, b: Text)
    requires KeysHold(t) && b !in t.bundles
    ensures (forall k :: k in t.sessions ==> k.0 != b) && forall k :: k in t.turns ==> k.0 != b
  {}

  lemma AddedKeysHold(t: Tables, payload: Json, digest: Text)
    requires KeysHold(t) && Accepts(payload) && BundleIdOf(payload) !in t.bundles
    ensures KeysHold(Added(t, payload, digest))
  {
    var b, items := BundleIdOf(payload), SessionsOf(payload);
    FreshBundle(t, b);
    PutSessionsKeys(t.sessions, b, items, |items|);
    PutAllTurnsKeys(t.turns, b, items, |items|);
  }

  lemma CountKeys(b: Text, before: set<Key>, items: seq<Json>, c: Text)
    requires UniqueIds(items) && forall k :: k in before ==> k.0 != b
    ensures |Of(c, before + KeysOf(b, items))| == if c == b then |items| else |Of(c, before)|
  {
    assert items[..|items|] == items;
    DistinctKeys(b, items, |items|);
    OnlyNewKeys(b, before, items);
  }

  lemma AddedCounts(t: Tables, payload: Json, digest: Text, c: Text)
    requires KeysHold(t) && CountsHold(t) && Accepts(payload) && BundleIdOf(payload) !in t.bundles
    requires c in Added(t, payload, digest).bundles
    ensures var a := Added(t, payload, digest);
            a.bundles[c].sessionCount == |Of(c, a.sessions.Keys)| && a.bundles[c].turnCount == |Of(c, a.turns.Keys)|
  {
    var b, items := BundleIdOf(payload), SessionsOf(payload);
    FreshBundle(t, b);
    assert items[..|items|] == items;
    PutSessionsKeys(t.sessions, b, items, |items|);
    PutAllTurnsKeys(t.turns, b, items, |items|);
    CountKeys(b, t.sessions.Keys, items, c);
    CountKeys(b, t.turns.Keys, AllTurns(items, |items|), c);
  }

  /** Adding a validated payload under a fresh id keeps every key constraint and every count. */
  lemma AddedIsValid(t: Tables, payload: Json, digest: Text)
    requires KeysHold(t) && CountsHold(t) && Accepts(payload) && BundleIdOf(payload) !in t.bundles
    ensures KeysHold(Added(t, payload, digest)) && CountsHold(Added(t, payload, digest))
  {
    AddedKeysHold(t, payload, digest);
    forall c | c in Added(t, payload, digest).bundles
      ensures Added(t, payload, digest).bundles[c].sessionCount == |Of(c, Added(t, payload, digest).sessions.Keys)|
      ensures Added(t, payload, digest).bundles[c].turnCount == |Of(c, Added(t, payload, digest).turns.Keys)|
    {
      AddedCounts(t, payload, digest, c);
    }
  }

  datatype Outcome =
    | Imported(sessions: nat, turns: nat)
    | Already(sessions: nat, turns: nat)
    | Refused | IoFailed | KeyViolated

  datatype Insert = Done | Failed | Violated

  class Archive {
    const digestOf: Json -> Text
    var tables: Tables

    constructor (digestOf: Json -> Text)
      ensures this.digestOf == digestOf && Valid() && tables == Tables(map[], map[], map[])
    {
      this.digestOf := digestOf;
      tables := Tables(map[], map[], map[]);
    }

    ghost predicate Valid()
      reads this
    {
      KeysHold(tables) && CountsHold(tables)
    }

    method InsertBundle(b: Text, row: BundleRow) returns (r: Insert)
      modifies this
      ensures r.Violated? <==> b in old(tables).bundles
      ensures tables == if r.Done? then old(tables).(bundles := old(tables).bundles[b := row]) else old(tables)
    {
      if b in tables.bundles { return Violated; }
      var fails: bool := *;
      if fails { return Failed; }
      tables := tables.(bundles := tables.bundles[b := row]);
      return Done;
    }

    method InsertSession(k: Key, row: SessionRow) returns (r: Insert)
      modifies this
      ensures r.Violated? <==> k in old(tables).sessions || k.0 !in old(tables).bundles
      ensures tables == if r.Done? then old(tables).(sessions := old(tables).sessions[k := row]) else old(tables)
    {
      if k in tables.sessions || k.0 !in tables.bundles { return Violated; }
      var fails: bool := *;
      if fails { return Failed; }
      tables := tables.(sessions := tables.sessions[k := row]);
      return Done;
    }

    method InsertTurn(k: Key, row: TurnRow) returns (r: Insert)
      modifies this
      ensures r.Violated? <==> k in old(tables).turns || (k.0, row.session) !in old(tables).sessions
      ensures tables == if r.Done? then old(tables).(turns := old(tables).turns[k := row]) else old(tables)
    {
      if k in tables.turns || (k.0, row.session) !in tables.sessions { return Violated; }
      var fails: bool := *;
      if fails { return Failed; }
      tables := tables.(turns := tables.turns[k := row]);
      return Done;
    }

    /** The turns of one session; no key is ever violated. */
    method InsertTurns(b: Text, sid: Text, ts: seq<Json>) returns (r: Insert)
      requires UniqueIds(ts) && (b, sid) in tables.sessions
      requires forall k :: k in KeysOf(b, ts) ==> k !in tables.turns
      modifies this
      ensures !r.Violated?
      ensures r.Done? ==> tables == old(tables).(turns := PutTurns(old(tables).turns, b, sid, ts, |ts|))
    {
      for j := 0 to |ts|
        invariant tables == old(tables).(turns := PutTurns(old(tables).turns, b, sid, ts, j))
      {
        PutTurnsKeys(old(tables).turns, b, sid, ts, j);
        assert (b, IdOf(ts[j])) in KeysOf(b, ts);
        r := InsertTurn((b, IdOf(ts[j])), ToTurn(sid, ts[j]));
        if !r.Done? { return; }
      }
      return Done;
    }

    /** One session and its turns. */
    method InsertOne(b: Text, items: seq<Json>, i: nat, ghost start: Tables) returns (r: Insert)
      requires i < |items| && UniqueIds(items) && UniqueIds(AllTurns(items, i + 1))
      requires b in tables.bundles
      requires (forall k :: k in start.sessions ==> k.0 != b) && forall k :: k in start.turns ==> k.0 != b
      requires tables.sessions == PutSessions(start.sessions, b, items, i)
      requires tables.turns == PutAllTurns(start.turns, b, items, i)
      modifies this
      ensures !r.Violated?
      ensures r.Done? ==> tables.bundles == old(tables).bundles
                          && tables.sessions == PutSessions(start.sessions, b, items, i + 1)
                          && tables.turns == PutAllTurns(start.turns, b, items, i + 1)
    {
      var s := items[i];
      PutSessionsKeys(start.sessions, b, items, i);
      assert (b, IdOf(s)) !in KeysOf(b, items[..i]);
      r := InsertSession((b, IdOf(s)), ToSession(s));
      if !r.Done? { return; }
      TurnKeysFresh(start.turns, b, items, i);
      r := InsertTurns(b, IdOf(s), TurnsOf(s));
    }

    /**
     Record one validated payload.  A known id with the same digest changes
     nothing, a known id with another digest is refused and changes nothing, a
     failure rolls everything back, and no key constraint can trip.
     */
    method ImportBundle(payload: Json) returns (r: Outcome)
      requires Valid() && Accepts(payload)
      modifies this
      ensures Valid() && !r.KeyViolated?
      ensures var b, was := BundleIdOf(payload), old(tables);
              if b in was.bundles then
                tables == was
                && r == if was.bundles[b].digest == digestOf(payload) then
                          Already(was.bundles[b].sessionCount, was.bundles[b].turnCount)
                        else Refused
              else
                (r == IoFailed && tables == was)
                || (tables == Added(was, payload, digestOf(payload))
                    && r == Imported(tables.bundles[b].sessionCount, tables.bundles[b].turnCount))
    {
      var b := BundleIdOf(payload);
      if b in tables.bundles {
        var row := tables.bundles[b];
        return if row.digest == digestOf(payload) then Already(row.sessionCount, row.turnCount) else Refused;
      }
      AddedIsValid(tables, payload, digestOf(payload));
      var done := InsertAll(payload);
      r := if done then Imported(tables.bundles[b].sessionCount, tables.bundles[b].turnCount) else IoFailed;
    }

    /** The transaction: the manifest, then every session with its turns; a failure restores the snapshot. */
    method InsertAll(payload: Json) returns (ok: bool)
      requires Valid() && Accepts(payload) && BundleIdOf(payload) !in tables.bundles
      modifies this
      ensures tables == if ok then Added(old(tables), payload, digestOf(payload)) else old(tables)
    {
      var b, items := BundleIdOf(payload), SessionsOf(payload);
      var snapshot, row := tables, RowFor(payload, digestOf(payload));
      FreshBundle(tables, b);
      var step := InsertBundle(b, row);
      if step.Failed? { return false; }
      for i := 0 to |items|
        invariant tables == Partly(snapshot, b, row, items, i)
      {
        IdsDiffer(payload, i + 1);
        step := InsertOne(b, items, i, snapshot);
        if !step.Done? {
          tables := snapshot;
          return false;
        }
      }
      var committed: bool := *;
      if !committed { tables := snapshot; }
      return committed;
    }

    /** A whole file: nothing is written unless all of it validates first. */
    method ImportFile(html: Text) returns (r: Option<Outcome>)
      requires Valid()
      modifies this
      ensures Valid() && (r.Some? <==> Extract(html).Some? && Accepts(Extract(html).value))
      ensures r.None? ==> tables == old(tables)
      ensures r.Some? ==> !r.value.KeyViolated?
      ensures r.Some? && BundleIdOf(Extract(html).value) in old(tables).bundles ==> tables == old(tables)
      ensures r.Some? && r.value.Imported? ==>
                tables == Added(old(tables), Extract(html).value, digestOf(Extract(html).value))
    {
      var payload := ParseBundle(html);
      if payload.None? { return None; }
      var outcome := ImportBundle(payload.value);
      return Some(outcome);
    }

    /** Importing the same payload again is a no-op that reports the stored counts. */
    method ImportTwice(payload: Json) returns (first: Outcome, second: Outcome)
      requires Valid() && Accepts(payload)
      modifies this
      ensures Valid()
      ensures first.Imported? ==>
                && second == Already(first.sessions, first.turns)
                && tables == Added(old(tables), payload, digestOf(payload))
    {
      first := ImportBundle(payload);
      second := ImportBundle(payload);
    }

    /** Any sequence of imports keeps the archive valid. */
    method ImportAll(payloads: seq<Json>)
      requires Valid() && forall i :: 0 <= i < |payloads| ==> Accepts(payloads[i])
      modifies this
      ensures Valid()
      ensures forall b :: b in old(tables).bundles ==>
                b in tables.bundles && tables.bundles[b] == old(tables).bundles[b]
    {
      for i := 0 to |payloads|
        invariant Valid()
        invariant forall b :: b in old(tables).bundles ==>
                    b in tables.bundles && tables.bundles[b] == old(tables).bundles[b]
      {
        var r := ImportBundle(payloads[i]);
      }
    }
  }

  lemma TurnKeysFresh(m: map<Key, TurnRow>, b: Text, items: seq<Json>, i: nat)
    requires i < |items| && UniqueIds(AllTurns(items, i + 1)) && forall k :: k in m ==> k.0 != b
    ensures UniqueIds(TurnsOf(items[i]))
    ensures forall k :: k in KeysOf(b, TurnsOf(items[i])) ==> k !in PutAllTurns(m, b, items, i)
  {
    UniqueConcat(AllTurns(items, i), TurnsOf(items[i]));
    PutAllTurnsKeys(m, b, items, i);
  }
}
