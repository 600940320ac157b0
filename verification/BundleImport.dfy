/**
 Validating an extracted payload.  The validator walks sessions and turns once,
 growing the sets of ids seen; `Accepts` says what it decides without the walk.
 */
module BundleImport {
  import opened Wrappers
  import opened JsonText
  import opened JsonValue
  import opened BundleDocument

  const MAX_SESSIONS := 200_000
  const MAX_TURNS_TOTAL := 5_000_000
  const MAX_TURNS_PER_SESSION := 200_000
  const MAX_NAME_LEN := 512
  const MIN_MS := 1
  const MAX_MS := 16_725_225_600_000
  const MAX_RECORD_COUNT := 100_000_000

  const SCHEMA_VERSION: Text := Codes("schema_version")
  const BUNDLE_ID: Text := Codes("bundle_id")
  const EXPORTED_MS: Text := Codes("exported_ms")
  const PROJECT: Text := Codes("project")
  const NAME: Text := Codes("name")
  const SESSIONS: Text := Codes("sessions")
  const EXPORT_ID: Text := Codes("export_id")
  const STARTED_MS: Text := Codes("started_ms")
  const ENDED_MS: Text := Codes("ended_ms")
  const RECORD_COUNT: Text := Codes("record_count")
  const TURNS: Text := Codes("turns")
  const TIMESTAMP_MS: Text := Codes("timestamp_ms")

  function Get(entries: seq<(Text, Json)>, key: Text): Option<Json> {
    if entries == [] then None
    else if entries[0].0 == key then Some(entries[0].1)
    else Get(entries[1..], key)
  }

  predicate OnlyKeys(entries: seq<(Text, Json)>, known: set<Text>) {
    forall i :: 0 <= i < |entries| ==> entries[i].0 in known
  }

  predicate IsHexId(s: Text) {
    |s| == 32 && forall i :: 0 <= i < 32 ==> 48 <= s[i] <= 57 || 97 <= s[i] <= 102
  }

  predicate IsId(v: Option<Json>) { v.Some? && v.value.Str? && IsHexId(v.value.s) }

  /** An integer in range; booleans are not integers. */
  predicate IntIn(v: Option<Json>, lo: int, hi: int) { v.Some? && v.value.Int? && lo <= v.value.n <= hi }

  predicate Absent(v: Option<Json>) { v.None? || v.value.Null? }

  predicate OptIntIn(v: Option<Json>, lo: int, hi: int) { Absent(v) || IntIn(v, lo, hi) }

  predicate ValidTurn(t: Json) {
    && t.Obj? && OnlyKeys(t.entries, {EXPORT_ID, TIMESTAMP_MS})
    && IsId(Get(t.entries, EXPORT_ID)) && OptIntIn(Get(t.entries, TIMESTAMP_MS), MIN_MS, MAX_MS)
  }

  function TurnsOf(s: Json): seq<Json> {
    if s.Obj? && Get(s.entries, TURNS).Some? && Get(s.entries, TURNS).value.Arr? then
      Get(s.entries, TURNS).value.items
    else []
  }

  /** The session's own fields and the shape of its turn list. */
  predicate ValidSession(s: Json) {
    && s.Obj? && OnlyKeys(s.entries, {EXPORT_ID, STARTED_MS, ENDED_MS, RECORD_COUNT, TURNS})
    && IsId(Get(s.entries, EXPORT_ID))
    && OptIntIn(Get(s.entries, STARTED_MS), MIN_MS, MAX_MS)
    && OptIntIn(Get(s.entries, ENDED_MS), MIN_MS, MAX_MS)
    && OptIntIn(Get(s.entries, RECORD_COUNT), 0, MAX_RECORD_COUNT)
    && (Absent(Get(s.entries, TURNS)) || Get(s.entries, TURNS).value.Arr?)
    && |TurnsOf(s)| <= MAX_TURNS_PER_SESSION
  }

  function IdOf(v: Json): Text {
    if v.Obj? && Get(v.entries, EXPORT_ID).Some? && Get(v.entries, EXPORT_ID).value.Str? then
      Get(v.entries, EXPORT_ID).value.s
    else []
  }

  function Ids(items: seq<Json>): set<Text> { set v | v in items :: IdOf(v) }

  predicate UniqueIds(items: seq<Json>) {
    forall i, j :: 0 <= i < j < |items| ==> IdOf(items[i]) != IdOf(items[j])
  }

  predicate ValidTurns(turns: seq<Json>) {
    UniqueIds(turns) && forall i :: 0 <= i < |turns| ==> ValidTurn(turns[i])
  }

  /** The turns of the first `n` sessions. */
  function AllTurns(sessions: seq<Json>, n: nat): seq<Json>
    requires n <= |sessions|
  {
    if n == 0 then [] else AllTurns(sessions, n - 1) + TurnsOf(sessions[n - 1])
  }

  /** The first `n` sessions and their turns are acceptable. */
  predicate Good(sessions: seq<Json>, n: nat)
    requires n <= |sessions|
  {
    && (forall i :: 0 <= i < n ==> ValidSession(sessions[i]))
    && UniqueIds(sessions[..n])
    && ValidTurns(AllTurns(sessions, n)) && |AllTurns(sessions, n)| <= MAX_TURNS_TOTAL
  }

  function Power(n: nat): nat { if n == 0 then 1 else 10 * Power(n - 1) }

  /** What follows the exponent sign: its value. */
  function ExponentOf(t: Text): int {
    if t == [] then 0
    else if t[1..] != [] && t[1] == 45 then -(NatValue(t[2..]) as int)
    else if t[1..] != [] && t[1] == 43 then NatValue(t[2..])
    else NatValue(t[1..])
  }

  /** A float's decimal text denotes exactly one: without its point it is the power of ten that the point undoes. */
  predicate IsOne(lexeme: Text) {
    var rest := DropDigits(lexeme);
    var tail := AfterFraction(rest);
    var fraction := if |tail| < |rest| then rest[1..|rest| - |tail|] else [];
    var digits := lexeme[..|lexeme| - |rest|] + fraction;
    var shift := |fraction| - ExponentOf(tail);
    IsFloat(lexeme) && shift >= 0 && NatValue(digits) == Power(shift)
  }

  /** The version compares equal to 1: so do true and 1.0. */
  predicate VersionOk(v: Option<Json>) {
    v == Some(Int(1)) || v == Some(Bool(true)) || (v.Some? && v.value.Float? && IsOne(v.value.lexeme))
  }

  /** The way 1.0 is printed. */
  lemma PrintedOne()
    ensures IsOne([49, 46, 48])
  {
    var t: Text := [49, 46, 48];
    assert t[1..] == [46, 48] && t[1..][1..] == [48] && t[2..] == [48] && t[2..][1..] == [];
    assert DropDigits(t[2..]) == [];
    assert DropDigits(t) == t[1..] && AfterFraction(t[1..]) == [];
    var digits := t[..1] + t[1..][1..2];
    assert digits == [49, 48] && digits[..1] == [49] && digits[..1][..0] == [];
    assert NatValue(digits[..1][..0]) == 0 && NatValue(digits[..1]) == 1 && NatValue(digits) == 10;
    assert Power(0) == 1 && Power(1) == 10;
  }

  predicate ProjectOk(v: Option<Json>) {
    && v.Some? && v.value.Obj?
    && var name := Get(v.value.entries, NAME);
       Absent(name) || (name.value.Str? && |name.value.s| <= MAX_NAME_LEN)
  }

  predicate HeaderOk(entries: seq<(Text, Json)>) {
    && VersionOk(Get(entries, SCHEMA_VERSION)) && IsId(Get(entries, BUNDLE_ID))
    && IntIn(Get(entries, EXPORTED_MS), MIN_MS, MAX_MS) && ProjectOk(Get(entries, PROJECT))
  }

  predicate Accepts(v: Json) {
    && v.Obj? && HeaderOk(v.entries)
    && var sessions := Get(v.entries, SESSIONS);
       sessions.Some? && sessions.value.Arr? && |sessions.value.items| <= MAX_SESSIONS
       && Good(sessions.value.items, |sessions.value.items|)
  }

  // ----- the walk -----

  lemma {:induction false} AllTurnsPrefix(sessions: seq<Json>, m: nat, n: nat)
    requires m <= n <= |sessions|
    ensures |AllTurns(sessions, m)| <= |AllTurns(sessions, n)|
    ensures forall i :: 0 <= i < |AllTurns(sessions, m)| ==> AllTurns(sessions, m)[i] == AllTurns(sessions, n)[i]
    decreases n
  {
    if m < n { AllTurnsPrefix(sessions, m, n - 1); }
  }

  /** What holds of all sessions holds of the first few. */
  lemma GoodPrefix(sessions: seq<Json>, m: nat, n: nat)
    requires m <= n <= |sessions| && Good(sessions, n)
    ensures Good(sessions, m)
  {
    AllTurnsPrefix(sessions, m, n);
    assert forall i :: 0 <= i < m ==> sessions[..m][i] == sessions[..n][i];
  }

  lemma UniqueConcat(a: seq<Json>, b: seq<Json>)
    ensures UniqueIds(a + b) <==> UniqueIds(a) && UniqueIds(b) && forall v :: v in b ==> IdOf(v) !in Ids(a)
  {
    var ab := a + b;
    if UniqueIds(ab) {
      forall i, j | 0 <= i < j < |a| ensures IdOf(a[i]) != IdOf(a[j]) { assert ab[i] == a[i] && ab[j] == a[j]; }
      forall i, j | 0 <= i < j < |b|
        ensures IdOf(b[i]) != IdOf(b[j])
      {
        assert ab[|a| + i] == b[i] && ab[|a| + j] == b[j];
      }
      forall v | v in b ensures IdOf(v) !in Ids(a) {
        var j :| 0 <= j < |b| && b[j] == v;
        forall i | 0 <= i < |a| ensures IdOf(a[i]) != IdOf(v) { assert ab[i] == a[i] && ab[|a| + j] == v; }
      }
    }
  }

  lemma ValidTurnsConcat(a: seq<Json>, b: seq<Json>)
    ensures ValidTurns(a + b) <==> ValidTurns(a) && ValidTurns(b) && forall t :: t in b ==> IdOf(t) !in Ids(a)
  {
    UniqueConcat(a, b);
    var ab := a + b;
    if ValidTurns(ab) {
      forall i | 0 <= i < |a| ensures ValidTurn(a[i]) { assert ab[i] == a[i]; }
      forall i | 0 <= i < |b| ensures ValidTurn(b[i]) { assert ab[|a| + i] == b[i]; }
    }
  }

  lemma UniqueSnoc(a: seq<Json>, v: Json)
    ensures UniqueIds(a + [v]) <==> UniqueIds(a) && IdOf(v) !in Ids(a)
  {
    UniqueConcat(a, [v]);
    assert v in [v];
  }

  /** Adding one session to a good prefix. */
  lemma GoodStep(sessions: seq<Json>, i: nat)
    requires i < |sessions| && Good(sessions, i)
    ensures Good(sessions, i + 1) <==>
            && ValidSession(sessions[i]) && IdOf(sessions[i]) !in Ids(sessions[..i])
            && |AllTurns(sessions, i)| + |TurnsOf(sessions[i])| <= MAX_TURNS_TOTAL
            && ValidTurns(TurnsOf(sessions[i]))
            && forall t :: t in TurnsOf(sessions[i]) ==> IdOf(t) !in Ids(AllTurns(sessions, i))
  {
    SessionsNext(sessions, i);
    ValidTurnsConcat(AllTurns(sessions, i), TurnsOf(sessions[i]));
  }

  lemma SessionsNext(sessions: seq<Json>, i: nat)
    requires i < |sessions|
    ensures UniqueIds(sessions[..i + 1]) <==> UniqueIds(sessions[..i]) && IdOf(sessions[i]) !in Ids(sessions[..i])
    ensures (forall j :: 0 <= j < i + 1 ==> ValidSession(sessions[j])) <==>
            (forall j :: 0 <= j < i ==> ValidSession(sessions[j])) && ValidSession(sessions[i])
  {
    assert sessions[..i + 1] == sessions[..i] + [sessions[i]];
    UniqueSnoc(sessions[..i], sessions[i]);
  }

  lemma IdsConcat(a: seq<Json>, b: seq<Json>)
    ensures Ids(a + b) == Ids(a) + Ids(b)
  {
    assert forall v :: v in a + b <==> v in a || v in b;
  }

  method CheckTurns(turns: seq<Json>, seen: set<Text>) returns (ok: bool, seen': set<Text>)
    ensures ok <==> ValidTurns(turns) && forall t :: t in turns ==> IdOf(t) !in seen
    ensures ok ==> seen' == seen + Ids(turns)
  {
    seen' := seen;
    for j := 0 to |turns|
      invariant ValidTurns(turns[..j]) && forall t :: t in turns[..j] ==> IdOf(t) !in seen
      invariant seen' == seen + Ids(turns[..j])
    {
      var t := turns[j];
      assert turns[..j + 1] == turns[..j] + [t];
      UniqueConcat(turns[..j], [t]);
      IdsConcat(turns[..j], [t]);
      if !ValidTurn(t) { return false, seen'; }
      var id := IdOf(t);
      if id in seen' {
        assert UniqueIds(turns) ==> UniqueIds(turns[..j + 1]);
        return false, seen';
      }
      seen' := seen' + {id};
    }
    assert turns[..|turns|] == turns;
    ok := true;
  }

  /** What the walk knows after `i` sessions. */
  ghost predicate Walked(sessions: seq<Json>, i: nat, seenSessions: set<Text>, seenTurns: set<Text>, total: int)
    requires i <= |sessions|
  {
    && Good(sessions, i)
    && seenSessions == Ids(sessions[..i]) && seenTurns == Ids(AllTurns(sessions, i)) && total == |AllTurns(sessions, i)|
  }

  lemma WalkedStep(sessions: seq<Json>, i: nat, seenSessions: set<Text>, seenTurns: set<Text>, total: int)
    requires i < |sessions| && Walked(sessions, i, seenSessions, seenTurns, total) && Good(sessions, i + 1)
    ensures Walked(sessions, i + 1, seenSessions + {IdOf(sessions[i])}, seenTurns + Ids(TurnsOf(sessions[i])),
                   total + |TurnsOf(sessions[i])|)
  {
    assert sessions[..i + 1] == sessions[..i] + [sessions[i]];
    IdsConcat(sessions[..i], [sessions[i]]);
    IdsConcat(AllTurns(sessions, i), TurnsOf(sessions[i]));
  }

  /** One session of the walk. */
  method CheckSession(sessions: seq<Json>, i: nat, seenSessions: set<Text>, seenTurns: set<Text>, total: int)
    returns (ok: bool, seenSessions': set<Text>, seenTurns': set<Text>, total': int)
    requires i < |sessions| && Walked(sessions, i, seenSessions, seenTurns, total)
    ensures ok <==> Good(sessions, i + 1)
    ensures ok ==> Walked(sessions, i + 1, seenSessions', seenTurns', total')
  {
    var s := sessions[i];
    GoodStep(sessions, i);
    seenSessions', seenTurns', total' := seenSessions, seenTurns, total;
    if !ValidSession(s) { return false, seenSessions', seenTurns', total'; }
    var sid := IdOf(s);
    if sid in seenSessions { return false, seenSessions', seenTurns', total'; }
    seenSessions' := seenSessions + {sid};
    total' := total + |TurnsOf(s)|;
    if total' > MAX_TURNS_TOTAL { return false, seenSessions', seenTurns', total'; }
    ok, seenTurns' := CheckTurns(TurnsOf(s), seenTurns);
    if ok { WalkedStep(sessions, i, seenSessions, seenTurns, total); }
  }

  /** The nested walk over sessions and turns. */
  method CheckSessions(sessions: seq<Json>) returns (ok: bool)
    ensures ok <==> Good(sessions, |sessions|)
  {
    var seenSessions, seenTurns, total := {}, {}, 0;
    for i := 0 to |sessions|
      invariant Walked(sessions, i, seenSessions, seenTurns, total)
    {
      ok, seenSessions, seenTurns, total := CheckSession(sessions, i, seenSessions, seenTurns, total);
      if !ok {
        if Good(sessions, |sessions|) { GoodPrefix(sessions, i + 1, |sessions|); }
        return;
      }
    }
    ok := true;
  }

  /** The validator: it accepts exactly the payloads `Accepts` describes. */
  method ValidatePayload(v: Json) returns (ok: bool)
    ensures ok <==> Accepts(v)
  {
    if !v.Obj? { return false; }
    if !HeaderOk(v.entries) { return false; }
    var sessions := Get(v.entries, SESSIONS);
    if sessions.None? || !sessions.value.Arr? { return false; }
    if |sessions.value.items| > MAX_SESSIONS { return false; }
    ok := CheckSessions(sessions.value.items);
  }

  /** A whole file: one payload element, valid JSON without repeated keys, acceptable content. */
  method ParseBundle(html: Text) returns (payload: Option<Json>)
    ensures payload == if Extract(html).Some? && Accepts(Extract(html).value) then Extract(html) else None
  {
    payload := Extract(html);
    if payload.Some? {
      var ok := ValidatePayload(payload.value);
      if !ok { payload := None; }
    }
  }
}
