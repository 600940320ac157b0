/**
 What the exporter writes and why the importer takes it back: the payload is laid
 out with the keys of every object in code-point order, and the validator looks
 entries up by key, so the layout does not matter to it.
 */
module BundleExport {
  import opened Wrappers
  import opened JsonText
  import opened JsonValue
  import opened BundleDocument
  import opened BundleImport

  // ----- what the exporter writes -----

  datatype TurnOut = TurnOut(id: Text, ts: int)
  datatype SessionOut = SessionOut(id: Text, started: int, ended: Option<int>, count: int, turns: seq<TurnOut>)

  /** `rest` are the entries the importer does not look at, `more` those of the project object. */
  datatype Export = Export(bundleId: Text, exportedMs: int, name: Text, more: seq<(Text, Json)>,
                           sessions: seq<SessionOut>, rest: seq<(Text, Json)>)

  function WriteTurn(t: TurnOut): Json { Obj([(EXPORT_ID, Str(t.id)), (TIMESTAMP_MS, Int(t.ts))]) }

  function WriteTurns(ts: seq<TurnOut>): (r: seq<Json>)
    ensures |r| == |ts| && forall i :: 0 <= i < |ts| ==> r[i] == WriteTurn(ts[i])
  {
    seq(|ts|, i requires 0 <= i < |ts| => WriteTurn(ts[i]))
  }

  function WriteSession(s: SessionOut): Json {
    Obj([(EXPORT_ID, Str(s.id)), (STARTED_MS, Int(s.started)),
         (ENDED_MS, if s.ended.None? then Null else Int(s.ended.value)),
         (RECORD_COUNT, Int(s.count)), (TURNS, Arr(WriteTurns(s.turns)))])
  }

  function WriteSessions(ss: seq<SessionOut>): (r: seq<Json>)
    ensures |r| == |ss| && forall i :: 0 <= i < |ss| ==> r[i] == WriteSession(ss[i])
  {
    seq(|ss|, i requires 0 <= i < |ss| => WriteSession(ss[i]))
  }

  function ProjectEntries(e: Export): seq<(Text, Json)> { [(NAME, Str(e.name))] + e.more }

  function PayloadEntries(e: Export): seq<(Text, Json)> {
    [(SCHEMA_VERSION, Int(1)), (BUNDLE_ID, Str(e.bundleId)), (EXPORTED_MS, Int(e.exportedMs)),
     (PROJECT, Obj(ProjectEntries(e))), (SESSIONS, Arr(WriteSessions(e.sessions)))] + e.rest
  }

  function Payload(e: Export): Json { Obj(PayloadEntries(e)) }

  predicate TurnInBounds(t: TurnOut) { IsHexId(t.id) && MIN_MS <= t.ts <= MAX_MS }

  predicate SessionInBounds(s: SessionOut) {
    && IsHexId(s.id) && MIN_MS <= s.started <= MAX_MS && (s.ended.Some? ==> MIN_MS <= s.ended.value <= MAX_MS)
    && 0 <= s.count <= MAX_RECORD_COUNT && |s.turns| <= MAX_TURNS_PER_SESSION
    && forall i :: 0 <= i < |s.turns| ==> TurnInBounds(s.turns[i])
  }

  function TurnsOut(ss: seq<SessionOut>, n: nat): seq<TurnOut>
    requires n <= |ss|
  {
    if n == 0 then [] else TurnsOut(ss, n - 1) + ss[n - 1].turns
  }

  predicate InBounds(e: Export) {
    && IsHexId(e.bundleId) && MIN_MS <= e.exportedMs <= MAX_MS && |e.name| <= MAX_NAME_LEN
    && |e.sessions| <= MAX_SESSIONS && |TurnsOut(e.sessions, |e.sessions|)| <= MAX_TURNS_TOTAL
    && (forall i :: 0 <= i < |e.sessions| ==> SessionInBounds(e.sessions[i]))
    && (forall i, j :: 0 <= i < j < |e.sessions| ==> e.sessions[i].id != e.sessions[j].id)
    && var ts := TurnsOut(e.sessions, |e.sessions|); forall i, j :: 0 <= i < j < |ts| ==> ts[i].id != ts[j].id
  }

  lemma {:induction false} GetEntry(entries: seq<(Text, Json)>, i: nat)
    requires i < |entries| && forall j :: 0 <= j < i ==> entries[j].0 != entries[i].0
    ensures Get(entries, entries[i].0) == Some(entries[i].1)
    decreases i
  {
    if i > 0 {
      assert entries[1..][i - 1] == entries[i];
      forall j | 0 <= j < i - 1 ensures entries[1..][j].0 != entries[i].0 { assert entries[1..][j] == entries[j + 1]; }
      GetEntry(entries[1..], i - 1);
    }
  }

  lemma KeysDiffer()
    ensures |EXPORT_ID| == 9 && |TIMESTAMP_MS| == 12 && |STARTED_MS| == 10 && |ENDED_MS| == 8 && |RECORD_COUNT| == 12
    ensures |TURNS| == 5
    ensures |SCHEMA_VERSION| == 14 && |BUNDLE_ID| == 9 && |EXPORTED_MS| == 11 && |PROJECT| == 7 && |SESSIONS| == 8
  {}

  lemma WrittenTurn(t: TurnOut)
    ensures IdOf(WriteTurn(t)) == t.id
    ensures ValidTurn(WriteTurn(t)) <==> TurnInBounds(t)
  {
    KeysDiffer();
    var entries := WriteTurn(t).entries;
    GetEntry(entries, 0);
    GetEntry(entries, 1);
  }

  lemma WrittenSession(s: SessionOut)
    ensures IdOf(WriteSession(s)) == s.id && TurnsOf(WriteSession(s)) == WriteTurns(s.turns)
    ensures ValidSession(WriteSession(s)) && (forall i :: 0 <= i < |s.turns| ==> ValidTurn(WriteTurn(s.turns[i])))
            <==> SessionInBounds(s)
  {
    KeysDiffer();
    var entries := WriteSession(s).entries;
    GetEntry(entries, 0);
    GetEntry(entries, 1);
    GetEntry(entries, 2);
    GetEntry(entries, 3);
    GetEntry(entries, 4);
    forall i | 0 <= i < |s.turns|
      ensures ValidTurn(WriteTurn(s.turns[i])) <==> TurnInBounds(s.turns[i])
    {
      WrittenTurn(s.turns[i]);
    }
  }

  lemma {:induction false} WrittenTurns(ss: seq<SessionOut>, n: nat)
    requires n <= |ss|
    ensures AllTurns(WriteSessions(ss), n) == WriteTurns(TurnsOut(ss, n))
    decreases n
  {
    if n > 0 {
      WrittenTurns(ss, n - 1);
      WrittenSession(ss[n - 1]);
    }
  }

  lemma {:induction false} TurnHome(ss: seq<SessionOut>, n: nat, i: nat) returns (k: nat, j: nat)
    requires n <= |ss| && i < |TurnsOut(ss, n)|
    ensures k < n && j < |ss[k].turns| && TurnsOut(ss, n)[i] == ss[k].turns[j]
    decreases n
  {
    var before := |TurnsOut(ss, n - 1)|;
    if i < before { k, j := TurnHome(ss, n - 1, i); } else { k, j := n - 1, i - before; }
  }

  lemma {:induction false} TurnListed(ss: seq<SessionOut>, n: nat, k: nat, j: nat)
    requires k < n <= |ss| && j < |ss[k].turns|
    ensures ss[k].turns[j] in TurnsOut(ss, n)
    decreases n
  {
    if k < n - 1 { TurnListed(ss, n - 1, k, j); }
  }

  /** The written sessions are good exactly when the exported ones are in bounds and carry distinct ids. */
  lemma WrittenGoodIff(ss: seq<SessionOut>)
    ensures Good(WriteSessions(ss), |ss|) <==>
            && |TurnsOut(ss, |ss|)| <= MAX_TURNS_TOTAL
            && (forall i :: 0 <= i < |ss| ==> SessionInBounds(ss[i]))
            && (forall i, j :: 0 <= i < j < |ss| ==> ss[i].id != ss[j].id)
            && var ts := TurnsOut(ss, |ss|); forall i, j :: 0 <= i < j < |ts| ==> ts[i].id != ts[j].id
  {
    var w, ts := WriteSessions(ss), TurnsOut(ss, |ss|);
    WrittenTurns(ss, |ss|);
    assert w[..|ss|] == w;
    WrittenIds(ss, ts);
    SessionsInBoundsIff(ss);
  }

  lemma WrittenIds(ss: seq<SessionOut>, ts: seq<TurnOut>)
    ensures UniqueIds(WriteSessions(ss)) <==> forall i, j :: 0 <= i < j < |ss| ==> ss[i].id != ss[j].id
    ensures UniqueIds(WriteTurns(ts)) <==> forall i, j :: 0 <= i < j < |ts| ==> ts[i].id != ts[j].id
  {
    forall i | 0 <= i < |ts| ensures IdOf(WriteTurns(ts)[i]) == ts[i].id { WrittenTurn(ts[i]); }
    forall i | 0 <= i < |ss| ensures IdOf(WriteSessions(ss)[i]) == ss[i].id { WrittenSession(ss[i]); }
  }

  lemma SessionsInBoundsIff(ss: seq<SessionOut>)
    ensures (forall i :: 0 <= i < |ss| ==> SessionInBounds(ss[i])) <==>
            && (forall i :: 0 <= i < |ss| ==> ValidSession(WriteSession(ss[i])))
            && (forall i :: 0 <= i < |TurnsOut(ss, |ss|)| ==> ValidTurn(WriteTurn(TurnsOut(ss, |ss|)[i])))
  {
    var ts := TurnsOut(ss, |ss|);
    forall i | 0 <= i < |ss|
      ensures SessionInBounds(ss[i])
              <==> && ValidSession(WriteSession(ss[i]))
                   && forall j :: 0 <= j < |ss[i].turns| ==> ValidTurn(WriteTurn(ss[i].turns[j]))
    {
      WrittenSession(ss[i]);
    }
    if forall i :: 0 <= i < |ss| ==> SessionInBounds(ss[i]) {
      forall i | 0 <= i < |ts| ensures ValidTurn(WriteTurn(ts[i])) {
        var k, j := TurnHome(ss, |ss|, i);
      }
    }
    if forall i :: 0 <= i < |ts| ==> ValidTurn(WriteTurn(ts[i])) {
      forall k, j | 0 <= k < |ss| && 0 <= j < |ss[k].turns| ensures ValidTurn(WriteTurn(ss[k].turns[j])) {
        TurnListed(ss, |ss|, k, j);
      }
    }
  }

  /** The importer accepts an export exactly when it respects the bounds. */
  lemma ExportAcceptedIff(e: Export)
    ensures Accepts(Payload(e)) <==> InBounds(e)
  {
    WrittenHeader(e);
    WrittenGoodIff(e.sessions);
  }

  /** What the importer looks up in an exported payload. */
  lemma WrittenHeader(e: Export)
    ensures var entries := PayloadEntries(e);
            && Get(entries, SCHEMA_VERSION) == Some(Int(1)) && Get(entries, BUNDLE_ID) == Some(Str(e.bundleId))
            && Get(entries, EXPORTED_MS) == Some(Int(e.exportedMs))
            && Get(entries, PROJECT) == Some(Obj(ProjectEntries(e)))
            && Get(ProjectEntries(e), NAME) == Some(Str(e.name))
            && Get(entries, SESSIONS) == Some(Arr(WriteSessions(e.sessions)))
  {
    KeysDiffer();
    var entries := PayloadEntries(e);
    GetEntry(entries, 0);
    GetEntry(entries, 1);
    GetEntry(entries, 2);
    GetEntry(entries, 3);
    GetEntry(entries, 4);
    GetEntry(ProjectEntries(e), 0);
  }

  // ----- keys in order -----

  predicate KeyBefore(a: Text, b: Text) {
    b != [] && (a == [] || a[0] < b[0] || (a[0] == b[0] && KeyBefore(a[1..], b[1..])))
  }

  lemma {:induction false} KeyBeforeTransitive(a: Text, b: Text, c: Text)
    requires KeyBefore(a, b) && KeyBefore(b, c)
    ensures KeyBefore(a, c)
  {
    if a != [] && a[0] == b[0] && b[0] == c[0] { KeyBeforeTransitive(a[1..], b[1..], c[1..]); }
  }

  lemma {:induction false} KeyBeforeTotal(a: Text, b: Text)
    ensures a == b || KeyBefore(a, b) || KeyBefore(b, a)
  {
    if a != [] && b != [] && a[0] == b[0] {
      KeyBeforeTotal(a[1..], b[1..]);
      assert a == [a[0]] + a[1..] && b == [b[0]] + b[1..];
    }
  }

  ghost predicate InKeyOrder(entries: seq<(Text, Json)>) {
    forall i, j :: 0 <= i < j < |entries| ==> KeyBefore(entries[i].0, entries[j].0)
  }

  function InsertEntry(e: (Text, Json), sorted: seq<(Text, Json)>): seq<(Text, Json)> {
    if sorted == [] || KeyBefore(e.0, sorted[0].0) then [e] + sorted else [sorted[0]] + InsertEntry(e, sorted[1..])
  }

  function SortEntries(entries: seq<(Text, Json)>): seq<(Text, Json)> {
    if entries == [] then [] else InsertEntry(entries[0], SortEntries(entries[1..]))
  }

  /** The value with the keys of every object in order. */
  function Sorted(v: Json): Json {
    match v
    case Arr(items) => Arr(seq(|items|, i requires 0 <= i < |items| => Sorted(items[i])))
    case Obj(entries) =>
      Obj(SortEntries(seq(|entries|, i requires 0 <= i < |entries| => (entries[i].0, Sorted(entries[i].1)))))
    case _ => v
  }

  function SortedItems(items: seq<Json>): (r: seq<Json>)
    ensures |r| == |items| && forall i :: 0 <= i < |items| ==> r[i] == Sorted(items[i])
  {
    seq(|items|, i requires 0 <= i < |items| => Sorted(items[i]))
  }

  function SortedValues(entries: seq<(Text, Json)>): (r: seq<(Text, Json)>)
    ensures |r| == |entries| && forall i :: 0 <= i < |entries| ==> r[i] == (entries[i].0, Sorted(entries[i].1))
  {
    seq(|entries|, i requires 0 <= i < |entries| => (entries[i].0, Sorted(entries[i].1)))
  }

  lemma SortedParts(v: Json)
    ensures v.Arr? ==> Sorted(v) == Arr(SortedItems(v.items))
    ensures v.Obj? ==> Sorted(v) == Obj(SortEntries(SortedValues(v.entries)))
  {
    match v
    case Arr(items) => assert Sorted(v).items == SortedItems(items);
    case Obj(entries) =>
      assert seq(|entries|, i requires 0 <= i < |entries| => (entries[i].0, Sorted(entries[i].1)))
          == SortedValues(entries);
    case _ =>
  }

  lemma {:induction false} InsertEntryKeeps(e: (Text, Json), sorted: seq<(Text, Json)>)
    ensures forall x :: x in InsertEntry(e, sorted) <==> x == e || x in sorted
    ensures |InsertEntry(e, sorted)| == |sorted| + 1
  {
    if !(sorted == [] || KeyBefore(e.0, sorted[0].0)) {
      InsertEntryKeeps(e, sorted[1..]);
      assert sorted == [sorted[0]] + sorted[1..];
    }
  }

  lemma {:induction false} InsertEntryOrders(e: (Text, Json), sorted: seq<(Text, Json)>)
    requires InKeyOrder(sorted) && forall x :: x in sorted ==> x.0 != e.0
    ensures InKeyOrder(InsertEntry(e, sorted))
  {
    if sorted != [] {
      if KeyBefore(e.0, sorted[0].0) {
        forall i | 0 < i < |sorted| ensures KeyBefore(e.0, sorted[i].0) {
          KeyBeforeTransitive(e.0, sorted[0].0, sorted[i].0);
        }
      } else {
        KeyBeforeTotal(e.0, sorted[0].0);
        var rest := InsertEntry(e, sorted[1..]);
        InsertEntryOrders(e, sorted[1..]);
        InsertEntryKeeps(e, sorted[1..]);
        forall i | 0 <= i < |rest| ensures KeyBefore(sorted[0].0, rest[i].0) { assert rest[i] in rest; }
      }
    }
  }

  /** Sorting the entries of an object keeps them all and puts their keys in order. */
  lemma {:induction false} SortEntriesSorts(entries: seq<(Text, Json)>)
    requires UniqueKeys(entries)
    ensures InKeyOrder(SortEntries(entries))
    ensures forall x :: x in SortEntries(entries) <==> x in entries
    ensures |SortEntries(entries)| == |entries|
  {
    if entries != [] {
      SortEntriesSorts(entries[1..]);
      InsertEntryKeeps(entries[0], SortEntries(entries[1..]));
      forall x | x in SortEntries(entries[1..]) ensures x.0 != entries[0].0 {
        var i :| 0 <= i < |entries| - 1 && entries[1..][i] == x;
        assert entries[i + 1] == x;
      }
      InsertEntryOrders(entries[0], SortEntries(entries[1..]));
      assert entries == [entries[0]] + entries[1..];
    }
  }

  lemma {:induction false} GetIsListed(entries: seq<(Text, Json)>, key: Text)
    ensures Get(entries, key).Some? ==> (key, Get(entries, key).value) in entries
    ensures Get(entries, key).None? ==> forall x :: x in entries ==> x.0 != key
  {
    if entries != [] {
      GetIsListed(entries[1..], key);
      assert entries == [entries[0]] + entries[1..];
    }
  }

  /** Where keys are unique, two lists of the same entries answer every lookup alike. */
  lemma GetIgnoresOrder(a: seq<(Text, Json)>, b: seq<(Text, Json)>, key: Text)
    requires UniqueKeys(a) && forall x :: x in a <==> x in b
    ensures Get(a, key) == Get(b, key)
  {
    GetIsListed(a, key);
    GetIsListed(b, key);
    if Get(a, key).Some? {
      var x, y := (key, Get(a, key).value), (key, Get(b, key).value);
      assert x in b && y in a;
      var i :| 0 <= i < |a| && a[i] == x;
      var j :| 0 <= j < |a| && a[j] == y;
    }
  }

  function SortedOption(v: Option<Json>): Option<Json> { if v.None? then None else Some(Sorted(v.value)) }

  lemma {:induction false} GetSortedValue(entries: seq<(Text, Json)>, key: Text)
    ensures Get(SortedValues(entries), key) == SortedOption(Get(entries, key))
  {
    if entries != [] {
      GetSortedValue(entries[1..], key);
      assert SortedValues(entries)[1..] == SortedValues(entries[1..]);
    }
  }

  lemma SortedValuesUnique(entries: seq<(Text, Json)>)
    requires UniqueKeys(entries)
    ensures UniqueKeys(SortedValues(entries))
  {
  }

  /** A lookup in the sorted object finds the sorted value of the same entry. */
  lemma GetSorted(v: Json, key: Text)
    requires v.Obj? && UniqueKeys(v.entries)
    ensures Get(Sorted(v).entries, key) == SortedOption(Get(v.entries, key))
  {
    var values := SortedValues(v.entries);
    SortedParts(v);
    SortedValuesUnique(v.entries);
    SortEntriesSorts(values);
    GetIgnoresOrder(values, SortEntries(values), key);
    GetSortedValue(v.entries, key);
  }

  lemma OrderedKeysAreUnique(entries: seq<(Text, Json)>)
    requires InKeyOrder(entries)
    ensures UniqueKeys(entries)
  {
    forall i, j | 0 <= i < j < |entries| ensures entries[i].0 != entries[j].0 {
      if entries[i].0 == entries[j].0 { KeyNotBeforeItself(entries[i].0); }
    }
  }

  lemma {:induction false} KeyNotBeforeItself(a: Text)
    ensures !KeyBefore(a, a)
  {
    if a != [] { KeyNotBeforeItself(a[1..]); }
  }

  lemma KeysStay(entries: seq<(Text, Json)>, known: set<Text>)
    requires UniqueKeys(entries)
    ensures OnlyKeys(Sorted(Obj(entries)).entries, known) <==> OnlyKeys(entries, known)
  {
    var values := SortedValues(entries);
    var sorted := SortEntries(values);
    SortedParts(Obj(entries));
    SortedValuesUnique(entries);
    SortEntriesSorts(values);
    if OnlyKeys(entries, known) {
      forall i | 0 <= i < |sorted| ensures sorted[i].0 in known {
        assert sorted[i] in values;
        var j :| 0 <= j < |values| && values[j] == sorted[i];
      }
    }
    if OnlyKeys(sorted, known) {
      forall j | 0 <= j < |entries| ensures entries[j].0 in known {
        assert values[j] in sorted;
        var i :| 0 <= i < |sorted| && sorted[i] == values[j];
      }
    }
  }

  /** Sorting keeps a value well formed and portable, and orders the keys of every object. */
  lemma {:induction false} SortedIsWellFormed(v: Json)
    requires WellFormed(v)
    ensures WellFormed(Sorted(v)) && (Portable(v) ==> Portable(Sorted(v))) && KeysInOrder(Sorted(v))
    decreases v
  {
    SortedParts(v);
    match v
    case Arr(items) =>
      forall i | 0 <= i < |items| ensures WellFormed(SortedItems(items)[i]) && KeysInOrder(SortedItems(items)[i])
                                  ensures Portable(v) ==> Portable(SortedItems(items)[i])
      {
        SortedIsWellFormed(items[i]);
      }
    case Obj(entries) =>
      var values := SortedValues(entries);
      SortedValuesUnique(entries);
      SortEntriesSorts(values);
      OrderedKeysAreUnique(SortEntries(values));
      forall x | x in values
        ensures WellFormed(x.1) && KeysInOrder(x.1) && (Portable(v) ==> PairFree(x.0) && Portable(x.1))
      {
        var i :| 0 <= i < |values| && values[i] == x;
        SortedIsWellFormed(entries[i].1);
      }
      var sorted := SortEntries(values);
      forall i | 0 <= i < |sorted| ensures sorted[i] in values {}
    case _ =>
  }

  /** Every object of the value lists its keys in order. */
  ghost predicate KeysInOrder(v: Json) {
    match v
    case Arr(items) => forall i :: 0 <= i < |items| ==> KeysInOrder(items[i])
    case Obj(entries) => InKeyOrder(entries) && forall i :: 0 <= i < |entries| ==> KeysInOrder(entries[i].1)
    case _ => true
  }

  // ----- the validator does not see the layout -----

  lemma OptIntStays(v: Json, key: Text, lo: int, hi: int)
    requires v.Obj? && UniqueKeys(v.entries)
    ensures OptIntIn(Get(Sorted(v).entries, key), lo, hi) <==> OptIntIn(Get(v.entries, key), lo, hi)
    ensures IntIn(Get(Sorted(v).entries, key), lo, hi) <==> IntIn(Get(v.entries, key), lo, hi)
  {
    GetSorted(v, key);
  }

  lemma IdStays(v: Json, key: Text)
    requires v.Obj? && UniqueKeys(v.entries)
    ensures IsId(Get(Sorted(v).entries, key)) <==> IsId(Get(v.entries, key))
  {
    GetSorted(v, key);
  }

  lemma ListStays(v: Json, key: Text)
    requires v.Obj? && UniqueKeys(v.entries)
    ensures Absent(Get(Sorted(v).entries, key)) <==> Absent(Get(v.entries, key))
    ensures Get(Sorted(v).entries, key).Some? && Get(Sorted(v).entries, key).value.Arr?
            <==> Get(v.entries, key).Some? && Get(v.entries, key).value.Arr?
  {
    GetSorted(v, key);
  }

  lemma SortedTurn(t: Json)
    requires WellFormed(t)
    ensures IdOf(Sorted(t)) == IdOf(t) && (ValidTurn(Sorted(t)) <==> ValidTurn(t))
  {
    if t.Obj? {
      GetSorted(t, EXPORT_ID);
      GetSorted(t, TIMESTAMP_MS);
      KeysStay(t.entries, {EXPORT_ID, TIMESTAMP_MS});
    }
  }

  lemma SortedTurnsOf(s: Json)
    requires WellFormed(s)
    ensures TurnsOf(Sorted(s)) == SortedItems(TurnsOf(s))
  {
    if s.Obj? {
      GetSorted(s, TURNS);
      if Get(s.entries, TURNS).Some? { SortedParts(Get(s.entries, TURNS).value); }
    }
  }

  lemma SortedSession(s: Json)
    requires WellFormed(s)
    ensures ValidSession(Sorted(s)) <==> ValidSession(s)
  {
    SortedTurnsOf(s);
    if s.Obj? {
      IdStays(s, EXPORT_ID);
      OptIntStays(s, STARTED_MS, MIN_MS, MAX_MS);
      OptIntStays(s, ENDED_MS, MIN_MS, MAX_MS);
      OptIntStays(s, RECORD_COUNT, 0, MAX_RECORD_COUNT);
      ListStays(s, TURNS);
      KeysStay(s.entries, {EXPORT_ID, STARTED_MS, ENDED_MS, RECORD_COUNT, TURNS});
    }
  }

  lemma SortedConcat(a: seq<Json>, b: seq<Json>)
    ensures SortedItems(a + b) == SortedItems(a) + SortedItems(b)
  {}

  lemma {:induction false} SortedAllTurns(sessions: seq<Json>, n: nat)
    requires n <= |sessions| && forall i :: 0 <= i < |sessions| ==> WellFormed(sessions[i])
    ensures AllTurns(SortedItems(sessions), n) == SortedItems(AllTurns(sessions, n))
    decreases n
  {
    if n > 0 {
      SortedAllTurns(sessions, n - 1);
      SortedTurnsOf(sessions[n - 1]);
      SortedConcat(AllTurns(sessions, n - 1), TurnsOf(sessions[n - 1]));
    }
  }

  lemma {:induction false} TurnsWellFormed(sessions: seq<Json>, n: nat)
    requires n <= |sessions| && forall i :: 0 <= i < |sessions| ==> WellFormed(sessions[i])
    ensures forall t :: t in AllTurns(sessions, n) ==> WellFormed(t)
    decreases n
  {
    if n > 0 {
      TurnsWellFormed(sessions, n - 1);
      var s := sessions[n - 1];
      assert WellFormed(s);
      if s.Obj? {
        GetIsListed(s.entries, TURNS);
      }
    }
  }

  lemma SortedUniqueIds(items: seq<Json>)
    requires forall i :: 0 <= i < |items| ==> WellFormed(items[i])
    ensures UniqueIds(SortedItems(items)) <==> UniqueIds(items)
  {
    var sorted := SortedItems(items);
    forall i | 0 <= i < |items| ensures IdOf(sorted[i]) == IdOf(items[i]) { SortedTurn(items[i]); }
    if UniqueIds(items) {
      forall i, j | 0 <= i < j < |items| ensures IdOf(sorted[i]) != IdOf(sorted[j]) {}
    }
    if UniqueIds(sorted) {
      forall i, j | 0 <= i < j < |items| ensures IdOf(items[i]) != IdOf(items[j]) {
        assert IdOf(sorted[i]) != IdOf(sorted[j]);
      }
    }
  }

  lemma SortedValidTurns(turns: seq<Json>)
    requires forall i :: 0 <= i < |turns| ==> WellFormed(turns[i])
    ensures ValidTurns(SortedItems(turns)) <==> ValidTurns(turns)
  {
    SortedUniqueIds(turns);
    forall i | 0 <= i < |turns|
      ensures ValidTurn(SortedItems(turns)[i]) <==> ValidTurn(turns[i])
    {
      SortedTurn(turns[i]);
    }
    if ValidTurns(SortedItems(turns)) {
      forall i | 0 <= i < |turns| ensures ValidTurn(turns[i]) { assert ValidTurn(SortedItems(turns)[i]); }
    }
  }

  lemma SortedValidSessions(sessions: seq<Json>)
    requires forall i :: 0 <= i < |sessions| ==> WellFormed(sessions[i])
    ensures (forall i :: 0 <= i < |sessions| ==> ValidSession(SortedItems(sessions)[i]))
            <==> forall i :: 0 <= i < |sessions| ==> ValidSession(sessions[i])
  {
    forall i | 0 <= i < |sessions| ensures ValidSession(SortedItems(sessions)[i]) <==> ValidSession(sessions[i]) {
      SortedSession(sessions[i]);
    }
  }

  lemma SortedGood(sessions: seq<Json>)
    requires forall i :: 0 <= i < |sessions| ==> WellFormed(sessions[i])
    ensures Good(SortedItems(sessions), |sessions|) <==> Good(sessions, |sessions|)
  {
    SortedAllTurns(sessions, |sessions|);
    TurnsWellFormed(sessions, |sessions|);
    SortedValidSessions(sessions);
    SortedValidTurns(AllTurns(sessions, |sessions|));
    SortedUniqueIds(sessions);
    assert sessions[..|sessions|] == sessions;
    assert SortedItems(sessions)[..|sessions|] == SortedItems(sessions);
  }

  lemma SortedHeader(v: Json)
    requires WellFormed(v) && v.Obj?
    ensures HeaderOk(Sorted(v).entries) <==> HeaderOk(v.entries)
  {
    GetSorted(v, SCHEMA_VERSION);
    IdStays(v, BUNDLE_ID);
    OptIntStays(v, EXPORTED_MS, MIN_MS, MAX_MS);
    GetSorted(v, PROJECT);
    GetIsListed(v.entries, PROJECT);
    var project := Get(v.entries, PROJECT);
    if project.Some? && project.value.Obj? { GetSorted(project.value, NAME); }
  }

  /** The validator accepts a value exactly when it accepts it with sorted keys. */
  lemma SortedAcceptedIff(v: Json)
    requires WellFormed(v)
    ensures Accepts(Sorted(v)) <==> Accepts(v)
  {
    if v.Obj? {
      SortedHeader(v);
      GetSorted(v, SESSIONS);
      GetIsListed(v.entries, SESSIONS);
      var sessions := Get(v.entries, SESSIONS);
      if sessions.Some? { SortedParts(sessions.value); }
      if sessions.Some? && sessions.value.Arr? { SortedGood(sessions.value.items); }
    }
  }

  /**
   Export, embed, extract, validate: the exporter prints its payload with sorted
   keys, and an in-bounds export comes back whole.
   */
  lemma ExportImports(before: seq<Piece>, e: Export, after: seq<Piece>)
    requires WellFormed(Payload(e)) && Portable(Payload(e))
    requires QuoteFreeMarkup(before) && QuoteFreeMarkup(after)
    ensures KeysInOrder(Sorted(Payload(e)))
    ensures Extract(Document(before, Sorted(Payload(e)), after)) == Some(Sorted(Payload(e)))
    ensures Accepts(Sorted(Payload(e))) <==> InBounds(e)
  {
    SortedIsWellFormed(Payload(e));
    ExportReadsBackIff(before, Sorted(Payload(e)), after);
    SortedAcceptedIff(Payload(e));
    ExportAcceptedIff(e);
  }
}
