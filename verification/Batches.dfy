/**
 Persisting a record stream in consecutive batches.  A record's own attribution
 is what a batch holding only that record would store it under; a group is
 split-proof exactly when its records agree on it.
 */
module Batches {
  import opened Wrappers
  import opened Records
  import opened SessionGroups
  import opened GroupingLaws
  import opened Correlate
  import opened Persist

  /** What record `r` of group `k` says, alone, about where its session is stored. */
  function OwnAttribution(r: Record, k: GroupKey): Option<(string, string)> {
    if r.projectPath == "" then None else Some((k.0, if NamesSession(r) then r.nativeId else k.1))
  }

  function Flatten(batches: seq<seq<Record>>): seq<Record> {
    if batches == [] then [] else Flatten(batches[..|batches| - 1]) + batches[|batches| - 1]
  }

  /** Every batch stores its records of group `k` where the whole stream would. */
  ghost predicate KeepsAttribution(records: seq<Record>, k: GroupKey, batches: seq<seq<Record>>) {
    forall b, r :: b in batches && r in b && KeyOf(r) == Some(k) ==> StoredAs(b, r) == StoredAs(records, r)
  }

  ghost predicate SplitProof(records: seq<Record>, k: GroupKey) {
    forall batches :: Flatten(batches) == records ==> KeepsAttribution(records, k, batches)
  }

  ghost predicate RecordsAgree(records: seq<Record>, k: GroupKey) {
    forall x, y :: x in records && y in records && KeyOf(x) == Some(k) && KeyOf(y) == Some(k) ==>
      OwnAttribution(x, k) == OwnAttribution(y, k)
  }

  lemma {:induction false} GroupKeepsSource(k: GroupKey, ms: seq<Record>)
    ensures AbsorbAll(NewGroup(k), ms).sourceId == k.0
    decreases |ms|
  {
    if ms != [] { GroupKeepsSource(k, ms[..|ms| - 1]); }
  }

  /** Where records agree, any batch stores each of them under its own attribution. */
  lemma AgreeingBatch(b: seq<Record>, k: GroupKey, r: Record)
    requires r in b && KeyOf(r) == Some(k) && RecordsAgree(b, k)
    ensures StoredAs(b, r) == OwnAttribution(r, k)
  {
    var ms := Members(b, k);
    MembersExactly(b, k, r);
    GroupSummarises(k, ms);
    GroupKeepsSource(k, ms);
    var i := NativeIdChoice(k, ms);
    forall m | m in ms ensures OwnAttribution(m, k) == OwnAttribution(r, k) {
      MembersExactly(b, k, m);
    }
    if exists m :: m in ms && NamesSession(m) {
      assert ms[i] in ms && NamesSession(ms[i]);
      assert OwnAttribution(ms[i], k) == OwnAttribution(r, k);
    }
  }

  lemma {:induction false} BatchWithin(batches: seq<seq<Record>>, b: seq<Record>, r: Record)
    requires b in batches && r in b
    ensures r in Flatten(batches)
  {
    var n := |batches| - 1;
    if batches[n] != b { BatchWithin(batches[..n], b, r); }
  }

  function Singletons(records: seq<Record>, n: nat): seq<seq<Record>>
    requires n <= |records|
  {
    if n == 0 then [] else Singletons(records, n - 1) + [[records[n - 1]]]
  }

  lemma {:induction false} SingletonsFlatten(records: seq<Record>, n: nat)
    requires n <= |records|
    ensures Flatten(Singletons(records, n)) == records[..n]
    ensures forall i :: 0 <= i < n ==> [records[i]] in Singletons(records, n)
  {
    if n > 0 {
      SingletonsFlatten(records, n - 1);
      var front := Singletons(records, n - 1);
      var all := Singletons(records, n);
      assert all[..|all| - 1] == front;
      assert records[..n] == records[..n - 1] + [records[n - 1]];
      assert all[|all| - 1] == [records[n - 1]];
      forall i | 0 <= i < n ensures [records[i]] in all {
        if i < n - 1 { assert [records[i]] in front; }
      }
    }
  }

  lemma AloneIsOwn(r: Record, k: GroupKey)
    requires KeyOf(r) == Some(k)
    ensures StoredAs([r], r) == OwnAttribution(r, k)
  {
    AgreeingBatch([r], k, r);
  }

  lemma AgreeingGroupSurvives(records: seq<Record>, k: GroupKey, batches: seq<seq<Record>>)
    requires RecordsAgree(records, k) && Flatten(batches) == records
    ensures KeepsAttribution(records, k, batches)
  {
    forall b, r | b in batches && r in b && KeyOf(r) == Some(k) ensures StoredAs(b, r) == StoredAs(records, r) {
      forall x | x in b ensures x in records { BatchWithin(batches, b, x); }
      AgreeingBatch(b, k, r);
      AgreeingBatch(records, k, r);
    }
  }

  lemma SingletonsSplit(records: seq<Record>, k: GroupKey, x: Record, y: Record) returns (batches: seq<seq<Record>>)
    requires x in records && y in records && KeyOf(x) == Some(k) && KeyOf(y) == Some(k)
    requires OwnAttribution(x, k) != OwnAttribution(y, k)
    ensures Flatten(batches) == records && !KeepsAttribution(records, k, batches)
  {
    batches := Singletons(records, |records|);
    SingletonsFlatten(records, |records|);
    assert records[..|records|] == records;
    var i :| 0 <= i < |records| && records[i] == x;
    var j :| 0 <= j < |records| && records[j] == y;
    assert [x] in batches && [y] in batches;
    AloneIsOwn(x, k);
    AloneIsOwn(y, k);
    assert StoredAs(records, x) == StoredAs(records, y);
    if StoredAs([x], x) != StoredAs(records, x) {
      assert x in [x];
    } else {
      assert y in [y] && StoredAs([y], y) != StoredAs(records, y);
    }
  }

  /**
   A group survives every splitting into consecutive batches exactly when all
   its records agree, each on its own, on where the session is stored.
   */
  lemma SplitProofIff(records: seq<Record>, k: GroupKey)
    ensures SplitProof(records, k) <==> RecordsAgree(records, k)
  {
    if RecordsAgree(records, k) {
      forall batches | Flatten(batches) == records ensures KeepsAttribution(records, k, batches) {
        AgreeingGroupSurvives(records, k, batches);
      }
    } else {
      var x, y :| x in records && y in records && KeyOf(x) == Some(k) && KeyOf(y) == Some(k)
          && OwnAttribution(x, k) != OwnAttribution(y, k);
      var batches := SingletonsSplit(records, k, x, y);
    }
  }

  ghost predicate OneName(ms: seq<Record>, k: GroupKey) {
    && (forall x, y :: x in ms && y in ms && NamesSession(x) && NamesSession(y) ==> x.nativeId == y.nativeId)
    && forall x, y :: x in ms && y in ms && NamesSession(x) && !NamesSession(y) ==> x.nativeId == k.1
  }

  lemma AgreeingPair(x: Record, y: Record, k: GroupKey)
    ensures OwnAttribution(x, k) == OwnAttribution(y, k) <==>
            || (x.projectPath == "" && y.projectPath == "")
            || (&& x.projectPath != "" && y.projectPath != ""
                && (NamesSession(x) && NamesSession(y) ==> x.nativeId == y.nativeId)
                && (NamesSession(x) && !NamesSession(y) ==> x.nativeId == k.1)
                && (NamesSession(y) && !NamesSession(x) ==> y.nativeId == k.1))
  {}

  /**
   Agreement, in terms of the records: none names a project, or all do and
   every session start that names the group repeats one id, which is the group
   key as soon as some record names nothing.
   */
  lemma AgreementIff(records: seq<Record>, k: GroupKey)
    ensures var ms := Members(records, k);
            RecordsAgree(records, k) <==>
            || (forall m :: m in ms ==> m.projectPath == "")
            || ((forall m :: m in ms ==> m.projectPath != "") && OneName(ms, k))
  {
    var ms := Members(records, k);
    forall x, y | x in ms && y in ms
      ensures OwnAttribution(x, k) == OwnAttribution(y, k) <==>
              || (x.projectPath == "" && y.projectPath == "")
              || (&& x.projectPath != "" && y.projectPath != ""
                  && (NamesSession(x) && NamesSession(y) ==> x.nativeId == y.nativeId)
                  && (NamesSession(x) && !NamesSession(y) ==> x.nativeId == k.1)
                  && (NamesSession(y) && !NamesSession(x) ==> y.nativeId == k.1))
    {
      AgreeingPair(x, y, k);
    }
    assert RecordsAgree(records, k) <==> forall x, y :: x in ms && y in ms ==>
        OwnAttribution(x, k) == OwnAttribution(y, k) by {
      forall m ensures m in ms <==> m in records && KeyOf(m) == Some(k) { MembersExactly(records, k, m); }
    }
  }

  /** A session start under another id splits from any record of the group that names nothing. */
  lemma RenamedGroupSplits(records: seq<Record>, k: GroupKey, start: Record, other: Record)
    requires start in records && other in records && KeyOf(start) == Some(k) && KeyOf(other) == Some(k)
    requires start.projectPath != "" && NamesSession(start) && start.nativeId != k.1 && !NamesSession(other)
    ensures exists batches :: Flatten(batches) == records && !KeepsAttribution(records, k, batches)
  {
    assert OwnAttribution(start, k) != OwnAttribution(other, k);
    SplitProofIff(records, k);
  }

  // ----- the ids of a batched stream -----

  ghost predicate AllAgree(records: seq<Record>) {
    forall k :: k in KeysOf(records) ==> RecordsAgree(records, k)
  }

  lemma BatchStoresSame(records: seq<Record>, batches: seq<seq<Record>>, b: seq<Record>, r: Record)
    requires AllAgree(records) && Flatten(batches) == records && b in batches && r in b
    ensures r in records && StoredAs(b, r) == StoredAs(records, r)
  {
    BatchWithin(batches, b, r);
    if KeyOf(r).Some? {
      assert KeyOf(r).value in KeysOf(records);
      SplitProofIff(records, KeyOf(r).value);
    }
  }

  ghost function SessionIdsOver(h: StableId, batches: seq<seq<Record>>): set<string> {
    if batches == [] then {} else SessionIdsOver(h, batches[..|batches| - 1]) + SessionIds(h, batches[|batches| - 1])
  }

  ghost function TurnIdsOver(h: StableId, batches: seq<seq<Record>>): set<string> {
    if batches == [] then {} else TurnIdsOver(h, batches[..|batches| - 1]) + TurnIds(h, batches[|batches| - 1])
  }

  /** A record's session id, when its batch stores it. */
  function RecordSession(h: StableId, records: seq<Record>, r: Record): Option<string> {
    var at := StoredAs(records, r);
    if at.Some? then Some(SessionIdOf(h, at.value.0, at.value.1)) else None
  }

  lemma InSessionIds(h: StableId, records: seq<Record>, id: string)
    ensures id in SessionIds(h, records) <==> exists r :: r in records && RecordSession(h, records, r) == Some(id)
  {
    if id in SessionIds(h, records) {
      var r :| r in records && StoredAs(records, r).Some? &&
               id == SessionIdOf(h, StoredAs(records, r).value.0, StoredAs(records, r).value.1);
      assert RecordSession(h, records, r) == Some(id);
    }
  }

  lemma {:induction false} OverBatches(h: StableId, batches: seq<seq<Record>>, id: string)
    ensures id in SessionIdsOver(h, batches) <==> exists b :: b in batches && id in SessionIds(h, b)
    ensures id in TurnIdsOver(h, batches) <==> exists b :: b in batches && id in TurnIds(h, b)
  {
    if batches != [] {
      var n := |batches| - 1;
      OverBatches(h, batches[..n], id);
      assert batches == batches[..n] + [batches[n]];
    }
  }

  lemma {:induction false} HomeBatch(batches: seq<seq<Record>>, r: Record) returns (b: seq<Record>)
    requires r in Flatten(batches)
    ensures b in batches && r in b
  {
    var n := |batches| - 1;
    if r in batches[n] { b := batches[n]; } else { b := HomeBatch(batches[..n], r); }
  }

  lemma BatchedIds(h: StableId, records: seq<Record>, batches: seq<seq<Record>>, id: string)
    requires AllAgree(records) && Flatten(batches) == records
    ensures id in SessionIdsOver(h, batches) <==> id in SessionIds(h, records)
    ensures id in TurnIdsOver(h, batches) <==> id in TurnIds(h, records)
  {
    OverBatches(h, batches, id);
    InSessionIds(h, records, id);
    forall b | b in batches ensures id in SessionIds(h, b) ==> id in SessionIds(h, records)
                            ensures id in TurnIds(h, b) ==> id in TurnIds(h, records)
    {
      InSessionIds(h, b, id);
      forall r | r in b
        ensures r in records && StoredAs(b, r) == StoredAs(records, r)
      {
        BatchStoresSame(records, batches, b, r);
      }
      if id in SessionIds(h, b) {
        var r :| r in b && RecordSession(h, b, r) == Some(id);
        assert RecordSession(h, records, r) == Some(id);
      }
      if id in TurnIds(h, b) {
        var r :| r in b && TurnId(h, b, r) == Some(id);
        assert TurnId(h, records, r) == Some(id);
      }
    }
    forall r | r in records
      ensures RecordSession(h, records, r) == Some(id) ==> id in SessionIdsOver(h, batches)
      ensures TurnId(h, records, r) == Some(id) ==> id in TurnIdsOver(h, batches)
    {
      var b := HomeBatch(batches, r);
      BatchStoresSame(records, batches, b, r);
      InSessionIds(h, b, id);
      assert RecordSession(h, b, r) == RecordSession(h, records, r);
      assert TurnId(h, b, r) == TurnId(h, records, r);
    }
  }

  /** Split-proof groups yield the same session and turn ids however the stream is batched. */
  lemma BatchInvariance(h: StableId, records: seq<Record>, batches: seq<seq<Record>>)
    requires AllAgree(records) && Flatten(batches) == records
    ensures SessionIdsOver(h, batches) == SessionIds(h, records)
    ensures TurnIdsOver(h, batches) == TurnIds(h, records)
  {
    forall id ensures id in SessionIdsOver(h, batches) <==> id in SessionIds(h, records)
              ensures id in TurnIdsOver(h, batches) <==> id in TurnIds(h, records)
    {
      BatchedIds(h, records, batches, id);
    }
  }

  lemma UnionStep(before: set<string>, soFar: set<string>, next: set<string>, now: set<string>, after: set<string>)
    requires now == before + soFar && after == now + next
    ensures after == before + (soFar + next)
  {}

  lemma OverAppend(h: StableId, batches: seq<seq<Record>>, n: nat)
    requires n < |batches|
    ensures SessionIdsOver(h, batches[..n + 1]) == SessionIdsOver(h, batches[..n]) + SessionIds(h, batches[n])
    ensures TurnIdsOver(h, batches[..n + 1]) == TurnIdsOver(h, batches[..n]) + TurnIds(h, batches[n])
  {
    assert batches[..n + 1][..n] == batches[..n];
  }

  /** Consecutive persists; with split-proof groups the new ids are those of one whole persist. */
  method PersistBatches(store: Store, batches: seq<seq<Record>>, windowMs: int)
    requires store.Valid()
    modifies store
    ensures store.Valid()
    ensures store.sessions.Keys == old(store.sessions.Keys) + SessionIdsOver(store.stableId, batches)
    ensures store.turns.Keys == old(store.turns.Keys) + TurnIdsOver(store.stableId, batches)
    ensures AllAgree(Flatten(batches)) ==>
              && store.sessions.Keys == old(store.sessions.Keys) + SessionIds(store.stableId, Flatten(batches))
              && store.turns.Keys == old(store.turns.Keys) + TurnIds(store.stableId, Flatten(batches))
  {
    for i := 0 to |batches|
      invariant store.Valid()
      invariant store.sessions.Keys == old(store.sessions.Keys) + SessionIdsOver(store.stableId, batches[..i])
      invariant store.turns.Keys == old(store.turns.Keys) + TurnIdsOver(store.stableId, batches[..i])
    {
      ghost var sessionsNow, turnsNow := store.sessions.Keys, store.turns.Keys;
      var result := CorrelateRecords(batches[i], windowMs);
      var turnCount, skipped := store.PersistCorrelated(batches[i], result.sessions);
      OverAppend(store.stableId, batches, i);
      UnionStep(old(store.sessions.Keys), SessionIdsOver(store.stableId, batches[..i]),
                SessionIds(store.stableId, batches[i]), sessionsNow, store.sessions.Keys);
      UnionStep(old(store.turns.Keys), TurnIdsOver(store.stableId, batches[..i]), TurnIds(store.stableId, batches[i]),
                turnsNow, store.turns.Keys);
    }
    assert batches[..|batches|] == batches;
    if AllAgree(Flatten(batches)) { BatchInvariance(store.stableId, Flatten(batches), batches); }
  }
}
