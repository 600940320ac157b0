/**
 Content-derived ids hash their parts joined with a bar.  Which parts may hold a
 bar themselves decides whether distinct parts can share an id.
 */
module StableIds {
  import opened Records
  import Persist
  import Text

  function Join(parts: seq<string>): string {
    if parts == [] then ""
    else if |parts| == 1 then parts[0]
    else parts[0] + "|" + Join(parts[1..])
  }

  predicate BarFree(s: string) { '|' !in s }

  /** Only the parts at the listed positions may hold a bar. */
  ghost predicate BarsOnlyIn(parts: seq<string>, free: set<nat>) {
    forall i :: 0 <= i < |parts| && i !in free ==> BarFree(parts[i])
  }

  /** Joining never maps two part lists of length `n` to one text. */
  ghost predicate Injective(n: nat, free: set<nat>) {
    forall a: seq<string>, b: seq<string> ::
      |a| == n && |b| == n && BarsOnlyIn(a, free) && BarsOnlyIn(b, free) && Join(a) == Join(b) ==> a == b
  }

  /**
   Two ways of cutting a text at a bar: the later cut has the earlier bar before
   it and the later bar behind the earlier cut.
   */
  lemma TwoCuts(a: string, s: string, b: string, t: string)
    requires a + "|" + s == b + "|" + t && |a| < |b|
    ensures '|' in b && '|' in s
  {
    var x, y := a + "|" + s, b + "|" + t;
    assert y[|a|] == b[|a|] && x[|a|] == '|';
    assert x[|b|] == s[|b| - |a| - 1] && y[|b|] == '|';
  }

  lemma SameCut(a: string, s: string, b: string, t: string)
    requires a + "|" + s == b + "|" + t && |a| == |b|
    ensures a == b && s == t
  {
    var x, y := a + "|" + s, b + "|" + t;
    assert a == x[..|a|] && b == y[..|b|];
    assert s == x[|a| + 1..] && t == y[|b| + 1..];
  }

  /** Two texts cut at their first bar agree piece by piece. */
  lemma FirstBar(a: string, s: string, b: string, t: string)
    requires BarFree(a) && BarFree(b) && a + "|" + s == b + "|" + t
    ensures a == b && s == t
  {
    if |a| < |b| { TwoCuts(a, s, b, t); }
    if |b| < |a| { TwoCuts(b, t, a, s); }
    SameCut(a, s, b, t);
  }

  /** Two texts cut at their last bar agree piece by piece. */
  lemma LastBar(s: string, a: string, t: string, b: string)
    requires BarFree(a) && BarFree(b) && s + "|" + a == t + "|" + b
    ensures a == b && s == t
  {
    if |s| < |t| { TwoCuts(s, a, t, b); }
    if |t| < |s| { TwoCuts(t, b, s, a); }
    SameCut(s, a, t, b);
  }

  lemma {:induction false} JoinLast(parts: seq<string>)
    requires |parts| >= 2
    ensures Join(parts) == Join(parts[..|parts| - 1]) + "|" + parts[|parts| - 1]
    decreases |parts|
  {
    if |parts| > 2 {
      JoinLast(parts[1..]);
      assert parts[1..][..|parts| - 2] == parts[..|parts| - 1][1..];
      assert Join(parts) == parts[0] + "|" + (Join(parts[..|parts| - 1][1..]) + "|" + parts[|parts| - 1]);
    } else {
      assert parts[1..] == [parts[1]] && parts[..1] == [parts[0]];
    }
  }

  /** With bars in one place at most, the join can be taken apart from both ends. */
  lemma {:induction false} OneFreePart(a: seq<string>, b: seq<string>, p: nat)
    requires |a| == |b| && Join(a) == Join(b)
    requires BarsOnlyIn(a, {p}) && BarsOnlyIn(b, {p})
    ensures a == b
    decreases |a|
  {
    var n := |a|;
    if n >= 2 {
      if p == 0 {
        JoinLast(a);
        JoinLast(b);
        LastBar(Join(a[..n - 1]), a[n - 1], Join(b[..n - 1]), b[n - 1]);
        OneFreePart(a[..n - 1], b[..n - 1], p);
        assert a == a[..n - 1] + [a[n - 1]] && b == b[..n - 1] + [b[n - 1]];
      } else {
        FirstBar(a[0], Join(a[1..]), b[0], Join(b[1..]));
        OneFreePart(a[1..], b[1..], p - 1);
        assert a == [a[0]] + a[1..] && b == [b[0]] + b[1..];
      }
    }
  }

  function Blank(n: nat): (parts: seq<string>)
    ensures |parts| == n && forall i :: 0 <= i < n ==> parts[i] == ""
  {
    seq(n, _ => "")
  }

  /** A text of `n` bars: `n - 1` blanks and one part that is a bar, wherever it stands. */
  lemma {:induction false} OneBarPart(n: nat, i: nat)
    requires i < n
    ensures var s := Join(Blank(n)[i := "|"]); |s| == n && forall k :: 0 <= k < n ==> s[k] == '|'
    decreases n
  {
    var parts := Blank(n)[i := "|"];
    if n > 1 {
      if i == 0 {
        BlankJoin(n - 1);
        assert parts[1..] == Blank(n - 1);
      } else {
        OneBarPart(n - 1, i - 1);
        assert parts[1..] == Blank(n - 1)[i - 1 := "|"];
      }
    }
  }

  lemma {:induction false} BlankJoin(n: nat)
    requires n >= 1
    ensures var s := Join(Blank(n)); |s| == n - 1 && forall k :: 0 <= k < n - 1 ==> s[k] == '|'
    decreases n
  {
    if n > 1 {
      BlankJoin(n - 1);
      assert Blank(n)[1..] == Blank(n - 1);
    }
  }

  /** For every arity the join is injective exactly when at most one position may hold a bar. */
  lemma InjectiveIff(n: nat, free: set<nat>)
    requires forall p :: p in free ==> p < n
    ensures Injective(n, free) <==> forall p, q :: p in free && q in free ==> p == q
  {
    if p, q :| p in free && q in free && p != q {
      var a, b := Blank(n)[p := "|"], Blank(n)[q := "|"];
      OneBarPart(n, p);
      OneBarPart(n, q);
      assert Join(a) == Join(b);
      assert a[p] != b[p];
      assert BarsOnlyIn(a, free) && BarsOnlyIn(b, free);
    } else {
      forall a: seq<string>, b: seq<string> | |a| == n && |b| == n && BarsOnlyIn(a, free) && BarsOnlyIn(b, free)
          && Join(a) == Join(b)
        ensures a == b
      {
        if p :| p in free {
          assert free == {p};
          OneFreePart(a, b, p);
        } else {
          OneFreePart(a, b, 0);
        }
      }
    }
  }

  // ----- the ids -----

  ghost predicate CollisionFree(hash: string -> string) {
    forall s, t :: hash(s) == hash(t) ==> s == t
  }

  function SessionId(hash: string -> string, source: string, native: string): string {
    hash(Join(["session", source, native]))
  }

  function TurnId(hash: string -> string, session: string, ts: string, role: string, tool: string,
                  fingerprint: string): string {
    hash(Join(["turn", session, ts, role, tool, fingerprint]))
  }

  /** The ids the tables are keyed by. */
  function IdsOf(hash: string -> string): Persist.StableId {
    Persist.StableId(
      path => hash(Join(["project", path])),
      (source, native) => SessionId(hash, source, native),
      (session, ts, role, tool, fingerprint) => TurnId(hash, session, Text.IntToString(ts), role, tool, fingerprint))
  }

  /** Session ids identify sessions: only the native id may hold a bar. */
  lemma SessionIdsIdentify(hash: string -> string, s1: string, n1: string, s2: string, n2: string)
    requires CollisionFree(hash) && BarFree(s1) && BarFree(s2)
    ensures Persist.SessionIdOf(IdsOf(hash), s1, n1) == Persist.SessionIdOf(IdsOf(hash), s2, n2)
            <==> s1 == s2 && n1 == n2
  {
    var a, b := ["session", s1, n1], ["session", s2, n2];
    if SessionId(hash, s1, n1) == SessionId(hash, s2, n2) {
      assert Join(a) == Join(b);
      OneFreePart(a, b, 2);
      assert a[1] == b[1] && a[2] == b[2];
    }
  }

  /** So do project ids, without a condition. */
  lemma ProjectIdsIdentify(hash: string -> string, p1: string, p2: string)
    requires CollisionFree(hash)
    ensures Persist.ProjectIdOf(IdsOf(hash), p1) == Persist.ProjectIdOf(IdsOf(hash), p2) <==> p1 == p2
  {
    var a, b := ["project", p1], ["project", p2];
    if Persist.ProjectIdOf(IdsOf(hash), p1) == Persist.ProjectIdOf(IdsOf(hash), p2) {
      assert Join(a) == Join(b);
      OneFreePart(a, b, 1);
      assert a[1] == b[1];
    }
  }

  /** Two records whose turn rows the table tells apart. */
  predicate SameTurnRow(session1: string, r1: Record, session2: string, r2: Record) {
    && session1 == session2 && r1.ts == r2.ts && r1.role == r2.role && r1.toolName == r2.toolName
    && r1.redactedFingerprint == r2.redactedFingerprint
  }

  /** Turn ids identify turns as long as no session id, role or tool name holds a bar; the fingerprint may. */
  lemma TurnIdsIdentify(hash: string -> string, session1: string, r1: Record, session2: string, r2: Record)
    requires CollisionFree(hash) && BarFree(session1) && BarFree(session2)
    requires BarFree(r1.role) && BarFree(r2.role) && BarFree(r1.toolName) && BarFree(r2.toolName)
    ensures Persist.TurnIdOf(IdsOf(hash), session1, r1) == Persist.TurnIdOf(IdsOf(hash), session2, r2)
            <==> SameTurnRow(session1, r1, session2, r2)
  {
    var a := ["turn", session1, Text.IntToString(r1.ts), r1.role, r1.toolName, r1.redactedFingerprint];
    var b := ["turn", session2, Text.IntToString(r2.ts), r2.role, r2.toolName, r2.redactedFingerprint];
    Text.NoBarInInteger(r1.ts);
    Text.NoBarInInteger(r2.ts);
    if Persist.TurnIdOf(IdsOf(hash), session1, r1) == Persist.TurnIdOf(IdsOf(hash), session2, r2) {
      assert Join(a) == Join(b);
      OneFreePart(a, b, 5);
      assert a[1] == b[1] && a[2] == b[2] && a[3] == b[3] && a[4] == b[4] && a[5] == b[5];
      Text.IntegersDiffer(r1.ts, r2.ts);
    }
  }

  /**
   A bar in the tool name is what breaks it: two records of one session between
   which a bar moves from tool name to fingerprint share a row.
   */
  lemma TurnIdsCollide(hash: string -> string, session: string, r: Record, moved: string)
    ensures Persist.TurnIdOf(IdsOf(hash), session, r.(toolName := r.toolName + "|" + moved))
            == Persist.TurnIdOf(IdsOf(hash), session, r.(redactedFingerprint := moved + "|" + r.redactedFingerprint))
  {
    BarMoves(hash, session, Text.IntToString(r.ts), r.role, r.toolName, moved, r.redactedFingerprint);
  }

  lemma BarMoves(hash: string -> string, session: string, ts: string, role: string, tool: string, moved: string,
                 fingerprint: string)
    ensures TurnId(hash, session, ts, role, tool + "|" + moved, fingerprint)
            == TurnId(hash, session, ts, role, tool, moved + "|" + fingerprint)
  {
    var x, y := [tool + "|" + moved, fingerprint], [tool, moved + "|" + fingerprint];
    assert x[1..] == [fingerprint] && y[1..] == [moved + "|" + fingerprint];
    assert tool + "|" + moved + "|" + fingerprint == tool + "|" + (moved + "|" + fingerprint);
    var front := ["turn", session, ts, role];
    SharedFront(front, x, y);
    assert front + x == ["turn", session, ts, role, tool + "|" + moved, fingerprint];
    assert front + y == ["turn", session, ts, role, tool, moved + "|" + fingerprint];
  }

  lemma {:induction false} SharedFront(front: seq<string>, x: seq<string>, y: seq<string>)
    requires Join(x) == Join(y) && x != [] && y != []
    ensures Join(front + x) == Join(front + y)
    decreases |front|
  {
    if front == [] {
      assert front + x == x && front + y == y;
    } else {
      SharedFront(front[1..], x, y);
      assert (front + x)[1..] == front[1..] + x && (front + y)[1..] == front[1..] + y;
    }
  }
}
