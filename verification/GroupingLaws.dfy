/**
 Laws of grouping that quantify over whole record streams: order independence,
 the exact condition for the session id to be order free, and conservation of
 turns.
 */
module GroupingLaws {
  import opened Wrappers
  import opened Records
  import opened SessionGroups
  import Sequences

  // ----- which session start names the group -----

  /** A session start no other session start of the group precedes in time. */
  ghost predicate Contender(ms: seq<Record>, m: Record) {
    && m in ms && NamesSession(m)
    && forall x :: x in ms && NamesSession(x) ==> m.ts <= x.ts
  }

  ghost predicate FirstContender(ms: seq<Record>, i: nat) {
    && i < |ms| && Contender(ms, ms[i])
    && forall j :: 0 <= j < i && NamesSession(ms[j]) ==> ms[i].ts < ms[j].ts
  }

  /** The group is named by the first contender, or by its own key when nothing names it. */
  lemma {:induction false} NativeIdChoice(k: GroupKey, ms: seq<Record>) returns (i: nat)
    ensures var g := AbsorbAll(NewGroup(k), ms);
            if exists m :: m in ms && NamesSession(m) then
              FirstContender(ms, i) && g.nativeId == ms[i].nativeId && g.sessionStartTs == Some(ms[i].ts)
            else
              g.nativeId == k.1 && g.sessionStartTs == None
    decreases |ms|
  {
    i := 0;
    if ms != [] {
      var n := |ms| - 1;
      var front, r := ms[..n], ms[n];
      assert ms == front + [r];
      var g := AbsorbAll(NewGroup(k), front);
      i := NativeIdChoice(k, front);
      assert forall m :: m in ms <==> m in front || m == r;
      if NamesSession(r) && (g.sessionStartTs.None? || r.ts < g.sessionStartTs.value) {
        i := n;
        forall x | x in ms && NamesSession(x) ensures r.ts <= x.ts {}
        forall j | 0 <= j < n && NamesSession(ms[j])
          ensures r.ts < ms[j].ts
        {
          assert ms[j] == front[j];
          assert front[j] in front;
        }
      } else if exists m :: m in front && NamesSession(m) {
        assert ms[i] == front[i];
        forall j | 0 <= j < i && NamesSession(ms[j]) ensures ms[i].ts < ms[j].ts { assert ms[j] == front[j]; }
      }
    }
  }

  /** A contender in front of all others always wins. */
  lemma LeadingContenderWins(k: GroupKey, ms: seq<Record>)
    requires ms != [] && Contender(ms, ms[0])
    ensures AbsorbAll(NewGroup(k), ms).nativeId == ms[0].nativeId
  {
    var i := NativeIdChoice(k, ms);
    assert ms[0] in ms;
  }

  // ----- order independence -----

  lemma {:induction false} MembersConcat(a: seq<Record>, b: seq<Record>, k: GroupKey)
    ensures Members(a + b, k) == Members(a, k) + Members(b, k)
    decreases |b|
  {
    if b == [] {
      assert a + b == a;
    } else {
      var n := |b| - 1;
      MembersConcat(a, b[..n], k);
      assert b == b[..n] + [b[n]];
      Sequences.Assoc(a, b[..n], [b[n]]);
      MembersAppend(a + b[..n], b[n], k);
      MembersAppend(b[..n], b[n], k);
      Sequences.Assoc(Members(a, k), Members(b[..n], k), [b[n]]);
    }
  }

  lemma MembersPermute(a: seq<Record>, b: seq<Record>, k: GroupKey)
    requires multiset(a) == multiset(b)
    ensures multiset(Members(a, k)) == multiset(Members(b, k))
  {
    forall r ensures multiset(Members(a, k))[r] == multiset(Members(b, k))[r] {
      MembersMultiset(a, k, r);
      MembersMultiset(b, k, r);
    }
  }

  lemma {:induction false} MessagesMultiset(ms: seq<Record>, r: Record)
    ensures multiset(Messages(ms))[r] == if r.rtype.Message? then multiset(ms)[r] else 0
    decreases |ms|
  {
    if ms != [] {
      var n := |ms| - 1;
      MessagesMultiset(ms[..n], r);
      assert ms == ms[..n] + [ms[n]];
    }
  }

  lemma MessagesPermute(a: seq<Record>, b: seq<Record>)
    requires multiset(a) == multiset(b)
    ensures |Messages(a)| == |Messages(b)|
  {
    forall r ensures multiset(Messages(a))[r] == multiset(Messages(b))[r] {
      MessagesMultiset(a, r);
      MessagesMultiset(b, r);
    }
    assert multiset(Messages(a)) == multiset(Messages(b));
    assert |multiset(Messages(a))| == |Messages(a)| && |multiset(Messages(b))| == |Messages(b)|;
  }

  lemma SameElements(a: seq<Record>, b: seq<Record>)
    requires multiset(a) == multiset(b)
    ensures forall r :: r in a <==> r in b
    ensures |a| == |b|
  {
    forall r ensures r in a <==> r in b {
      assert r in a <==> r in multiset(a);
      assert r in b <==> r in multiset(b);
    }
    assert |multiset(a)| == |a| && |multiset(b)| == |b|;
  }

  /** Everything about a group except its first-non-empty labels and its name. */
  ghost predicate SameTotals(g: Group, h: Group) {
    && g.startedMs == h.startedMs && g.endedMs == h.endedMs
    && g.turnCount == h.turnCount && g.absorbed == h.absorbed
    && g.memberNativeIds == h.memberNativeIds
    && g.memberRawIds == h.memberRawIds
    && g.fingerprints == h.fingerprints
    && (g.projectPath == "" <==> h.projectPath == "")
  }

  lemma SpansAgree(g: Group, h: Group, a: seq<Record>, b: seq<Record>)
    requires SpansMembers(g, a) && SpansMembers(h, b)
    requires forall r :: r in a <==> r in b
    ensures g.startedMs == h.startedMs && g.endedMs == h.endedMs
  {}

  lemma CollectionsAgree(g: Group, h: Group, a: seq<Record>, b: seq<Record>)
    requires CollectsMembers(g, a) && CollectsMembers(h, b)
    requires forall r :: r in a <==> r in b
    requires |a| == |b| && |Messages(a)| == |Messages(b)|
    ensures g.turnCount == h.turnCount && g.absorbed == h.absorbed
    ensures g.memberNativeIds == h.memberNativeIds && g.memberRawIds == h.memberRawIds
    ensures g.fingerprints == h.fingerprints && (g.projectPath == "" <==> h.projectPath == "")
  {}

  /** Permuting the records changes neither the groups nor anything they total. */
  lemma GroupsOrderFree(a: seq<Record>, b: seq<Record>, k: GroupKey)
    requires multiset(a) == multiset(b)
    ensures KeysOf(a) == KeysOf(b)
    ensures SameTotals(GroupOf(a, k), GroupOf(b, k))
  {
    SameElements(a, b);
    MembersPermute(a, b, k);
    var ma, mb := Members(a, k), Members(b, k);
    SameElements(ma, mb);
    MessagesPermute(ma, mb);
    GroupSummarises(k, ma);
    GroupSummarises(k, mb);
    CollectionsAgree(GroupOf(a, k), GroupOf(b, k), ma, mb);
    if ma != [] {
      SpansAgree(GroupOf(a, k), GroupOf(b, k), ma, mb);
    }
  }

  /** No two contenders of the group disagree on its name. */
  ghost predicate ContendersAgree(records: seq<Record>, k: GroupKey) {
    forall x, y :: Contender(Members(records, k), x) && Contender(Members(records, k), y) ==> x.nativeId == y.nativeId
  }

  lemma ContendersPermute(a: seq<Record>, b: seq<Record>, k: GroupKey, m: Record)
    requires multiset(a) == multiset(b)
    ensures Contender(Members(a, k), m) <==> Contender(Members(b, k), m)
  {
    MembersPermute(a, b, k);
    SameElements(Members(a, k), Members(b, k));
  }

  lemma AgreeingContendersFixName(a: seq<Record>, b: seq<Record>, k: GroupKey)
    requires multiset(a) == multiset(b) && ContendersAgree(a, k)
    ensures GroupOf(b, k).nativeId == GroupOf(a, k).nativeId
  {
    MembersPermute(a, b, k);
    SameElements(Members(a, k), Members(b, k));
    var i := NativeIdChoice(k, Members(a, k));
    var j := NativeIdChoice(k, Members(b, k));
    if exists m :: m in Members(a, k) && NamesSession(m) {
      ContendersPermute(a, b, k, Members(b, k)[j]);
    }
  }

  /** Moving one record of the stream to its front. */
  lemma {:induction false} MoveToFront(records: seq<Record>, z: Record) returns (b: seq<Record>)
    requires z in records
    ensures multiset(b) == multiset(records) && b != [] && b[0] == z
  {
    var i :| 0 <= i < |records| && records[i] == z;
    b := [z] + (records[..i] + records[i + 1..]);
    assert records == records[..i] + [z] + records[i + 1..];
  }

  lemma FrontedContenderNames(a: seq<Record>, k: GroupKey, z: Record) returns (b: seq<Record>)
    requires Contender(Members(a, k), z)
    ensures multiset(b) == multiset(a) && GroupOf(b, k).nativeId == z.nativeId
  {
    MembersExactly(a, k, z);
    b := MoveToFront(a, z);
    assert b == [z] + b[1..];
    MembersConcat([z], b[1..], k);
    assert [z][..0] == [];
    assert Members([z], k) == [z];
    ContendersPermute(a, b, k, z);
    LeadingContenderWins(k, Members(b, k));
  }

  /**
   The session id is independent of record order exactly when all earliest
   session starts of the group carry the same id.
   */
  lemma NativeIdOrderFreeIff(a: seq<Record>, k: GroupKey)
    ensures ContendersAgree(a, k) <==>
            forall b: seq<Record> :: multiset(b) == multiset(a) ==> GroupOf(b, k).nativeId == GroupOf(a, k).nativeId
  {
    if ContendersAgree(a, k) {
      forall b: seq<Record> | multiset(b) == multiset(a)
        ensures GroupOf(b, k).nativeId == GroupOf(a, k).nativeId
      {
        AgreeingContendersFixName(a, b, k);
      }
    } else {
      var x, y :| Contender(Members(a, k), x) && Contender(Members(a, k), y) && x.nativeId != y.nativeId;
      var z := if GroupOf(a, k).nativeId == x.nativeId then y else x;
      var b := FrontedContenderNames(a, k, z);
      assert multiset(b) == multiset(a) && GroupOf(b, k).nativeId != GroupOf(a, k).nativeId;
    }
  }

  /** Distinct session-start times within the group are enough. */
  lemma DistinctStartTimesSuffice(a: seq<Record>, k: GroupKey)
    requires var ms := Members(a, k);
             forall x, y :: x in ms && y in ms && NamesSession(x) && NamesSession(y) && x.ts == y.ts ==> x == y
    ensures ContendersAgree(a, k)
  {}

  // ----- conservation -----

  /** Message records that are not router traffic. */
  function CountedMessages(records: seq<Record>): nat {
    if records == [] then 0
    else
      var r := records[|records| - 1];
      CountedMessages(records[..|records| - 1]) + if r.rtype.Message? && r.sourceId != ROUTER_SOURCE then 1 else 0
  }

  ghost function TurnTotal(records: seq<Record>, ks: set<GroupKey>): nat {
    if ks == {} then 0
    else var k :| k in ks; GroupOf(records, k).turnCount + TurnTotal(records, ks - {k})
  }

  lemma {:induction false} TurnTotalAppend(records: seq<Record>, r: Record, ks: set<GroupKey>)
    ensures TurnTotal(records + [r], ks) == TurnTotal(records, ks) +
            if r.rtype.Message? && KeyOf(r).Some? && KeyOf(r).value in ks then 1 else 0
    decreases ks
  {
    if ks != {} {
      var k :| k in ks
          && TurnTotal(records + [r], ks) == GroupOf(records + [r], k).turnCount + TurnTotal(records + [r], ks - {k});
      MembersAppend(records, r, k);
      TurnTotalAppend(records, r, ks - {k});
      TurnTotalPick(records, ks, k);
    }
  }

  lemma {:induction false} TurnTotalPick(records: seq<Record>, ks: set<GroupKey>, k: GroupKey)
    requires k in ks
    ensures TurnTotal(records, ks) == GroupOf(records, k).turnCount + TurnTotal(records, ks - {k})
    decreases ks
  {
    var c :| c in ks && TurnTotal(records, ks) == GroupOf(records, c).turnCount + TurnTotal(records, ks - {c});
    if c != k {
      TurnTotalPick(records, ks - {c}, k);
      TurnTotalPick(records, ks - {k}, c);
      assert ks - {c} - {k} == ks - {k} - {c};
    }
  }

  /** Summed over all groups, the turn counts are exactly the non-router message records. */
  lemma {:induction false} TurnsConserved(records: seq<Record>, ks: set<GroupKey>)
    requires KeysOf(records) <= ks
    ensures TurnTotal(records, ks) == CountedMessages(records)
    decreases |records|
  {
    if records == [] {
      NoRecordsNoTurns(ks);
    } else {
      var n := |records| - 1;
      var r := records[n];
      assert records == records[..n] + [r];
      TurnsConserved(records[..n], ks);
      TurnTotalAppend(records[..n], r, ks);
      if KeyOf(r).Some? { assert KeyOf(r).value in KeysOf(records); }
    }
  }

  lemma {:induction false} NoRecordsNoTurns(ks: set<GroupKey>)
    ensures TurnTotal([], ks) == 0
    decreases ks
  {
    if ks != {} {
      var k :| k in ks && TurnTotal([], ks) == GroupOf([], k).turnCount + TurnTotal([], ks - {k});
      assert Members([], k) == [];
      assert GroupOf([], k).turnCount == 0;
      NoRecordsNoTurns(ks - {k});
    }
  }
}
