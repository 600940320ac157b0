/**
 The compiler stamp inside an artifact: how it is searched for, where emission
 puts it, and when reading gives back what emission wrote.
 */
module Stamp {
  import opened Wrappers

  const MARK := "compiler="

  predicate IsHex(c: char) { '0' <= c <= '9' || 'a' <= c <= 'f' }

  predicate AllHex(s: string) { forall c :: c in s ==> IsHex(c) }

  /** The mark stands at position `i` and a hexadecimal digit follows it. */
  predicate MatchAt(s: string, i: nat) {
    i + 9 < |s| && (forall j :: 0 <= j < 9 ==> s[i + j] == MARK[j]) && IsHex(s[i + 9])
  }

  /** The longest run of hexadecimal digits from position `i`. */
  function HexRun(s: string, i: nat): (run: string)
    requires i <= |s|
    ensures i + |run| <= |s| && forall j :: 0 <= j < |run| ==> run[j] == s[i + j] && IsHex(run[j])
    ensures i + |run| < |s| ==> !IsHex(s[i + |run|])
    decreases |s| - i
  {
    if i < |s| && IsHex(s[i]) then [s[i]] + HexRun(s, i + 1) else []
  }

  /** Leftmost match at or after `i`; its digits. */
  function FindFrom(s: string, i: nat): (found: Option<string>)
    requires i <= |s|
    ensures found.None? <==> forall k :: i <= k < |s| ==> !MatchAt(s, k)
    decreases |s| - i
  {
    if i == |s| then None
    else if MatchAt(s, i) then Some(HexRun(s, i + 9))
    else FindFrom(s, i + 1)
  }

  function FindStamp(s: string): Option<string> { FindFrom(s, 0) }

  /** An emitted artifact: everything before the stamp, the stamp, and the rest of the footer. */
  function Emitted(before: string, stamp: string, rest: string): string {
    before + MARK + stamp + " " + rest
  }

  lemma {:induction false} FirstMatch(s: string, i: nat, k: nat)
    requires i <= k < |s| && MatchAt(s, k)
    requires forall j :: i <= j < k ==> !MatchAt(s, j)
    ensures FindFrom(s, i) == Some(HexRun(s, k + 9))
    decreases k - i
  {
    if i < k { FirstMatch(s, i + 1, k); }
  }

  /** `s` and `t` have the same first `n` characters. */
  predicate SameUpTo(s: string, t: string, n: nat) {
    n <= |s| && n <= |t| && forall j :: 0 <= j < n ==> s[j] == t[j]
  }

  /** A run that ends at a common non-digit is the same in both strings. */
  lemma {:induction false} RunAgrees(s: string, t: string, i: nat, end: nat)
    requires i <= end && SameUpTo(s, t, end + 1) && !IsHex(s[end])
    ensures HexRun(s, i) == HexRun(t, i)
    decreases end - i
  {
    if i < end && IsHex(s[i]) { RunAgrees(s, t, i + 1, end); }
  }

  lemma {:induction false} RunLength(s: string, i: nat, end: nat)
    requires i <= end < |s| && !IsHex(s[end]) && forall j :: i <= j < end ==> IsHex(s[j])
    ensures |HexRun(s, i)| == end - i
    decreases end - i
  {
    if i < end { RunLength(s, i + 1, end); }
  }

  /** The characters of an emitted artifact, part by part. */
  lemma EmittedParts(before: string, stamp: string, rest: string)
    ensures var s := Emitted(before, stamp, rest);
            && SameUpTo(s, before, |before|)
            && |s| == |before| + 9 + |stamp| + 1 + |rest|
            && (forall j :: 0 <= j < 9 ==> s[|before| + j] == MARK[j])
            && (forall j :: 0 <= j < |stamp| ==> s[|before| + 9 + j] == stamp[j])
            && s[|before| + 9 + |stamp|] == ' '
  {}

  /** No position of a match holds a space. */
  lemma MatchHasNoSpace(s: string, k: nat, i: nat)
    requires k <= i < k + 9
    ensures MatchAt(s, k) ==> s[i] != ' '
  {
    var gap := i - k;
    assert MARK[gap] != ' ';
    assert MatchAt(s, k) ==> s[k + gap] == MARK[gap];
  }

  /** Inside the part before the stamp, the artifact matches exactly where that part alone does. */
  lemma MatchesBefore(before: string, s: string, k: nat)
    requires before != [] && before[|before| - 1] == ' ' && k < |before| && SameUpTo(s, before, |before|)
    ensures MatchAt(s, k) <==> MatchAt(before, k)
  {
    if |before| - 1 < k + 9 { MatchHasNoSpace(s, k, |before| - 1); }
  }

  lemma OwnMatch(before: string, stamp: string, rest: string)
    requires stamp != [] && AllHex(stamp)
    ensures var s := Emitted(before, stamp, rest);
            |before| + 9 < |s| && MatchAt(s, |before|) && HexRun(s, |before| + 9) == stamp
  {
    var s := Emitted(before, stamp, rest);
    EmittedParts(before, stamp, rest);
    var i := |before| + 9;
    assert s[i + 0] == stamp[0];
    forall j | i <= j < i + |stamp| ensures IsHex(s[j]) { assert s[i + (j - i)] == stamp[j - i]; }
    RunLength(s, i, i + |stamp|);
  }

  /** An earlier match, if any, is what the search returns. */
  lemma EarlierMatchWins(before: string, stamp: string, rest: string)
    requires before != [] && before[|before| - 1] == ' ' && stamp != [] && AllHex(stamp)
    ensures FindStamp(Emitted(before, stamp, rest))
            == if FindStamp(before).None? then Some(stamp) else FindStamp(before)
  {
    var s := Emitted(before, stamp, rest);
    EmittedParts(before, stamp, rest);
    forall k | 0 <= k < |before| ensures MatchAt(s, k) <==> MatchAt(before, k) { MatchesBefore(before, s, k); }
    if FindStamp(before).None? {
      OwnMatch(before, stamp, rest);
      FirstMatch(s, 0, |before|);
    } else {
      var k := FirstIndex(before, 0);
      FirstMatch(before, 0, k);
      FirstMatch(s, 0, k);
      RunAgrees(before, s, k + 9, |before| - 1);
    }
  }

  lemma {:induction false} FirstIndex(s: string, i: nat) returns (k: nat)
    requires i <= |s| && FindFrom(s, i).Some?
    ensures i <= k < |s| && MatchAt(s, k) && forall j :: i <= j < k ==> !MatchAt(s, j)
    decreases |s| - i
  {
    if MatchAt(s, i) { k := i; } else { k := FirstIndex(s, i + 1); }
  }

  /**
   The stamp reads back exactly when the text before it holds no match of its own,
   or its first match happens to carry the same digits.
   */
  lemma StampReadsBackIff(before: string, stamp: string, rest: string)
    requires before != [] && before[|before| - 1] == ' ' && stamp != [] && AllHex(stamp)
    ensures FindStamp(Emitted(before, stamp, rest)) == Some(stamp)
            <==> FindStamp(before) == None || FindStamp(before) == Some(stamp)
  {
    EarlierMatchWins(before, stamp, rest);
  }

  /** A body quoting another stamp hides the footer's. */
  lemma QuotedStampHidesFooter(stamp: string, rest: string)
    requires stamp != [] && AllHex(stamp) && stamp != "0"
    ensures FindStamp(Emitted("compiler=0 ", stamp, rest)) == Some("0")
  {
    var before := "compiler=0 ";
    EarlierMatchWins(before, stamp, rest);
    assert MatchAt(before, 0);
    FirstMatch(before, 0, 0);
    RunLength(before, 9, 10);
    assert HexRun(before, 9)[0] == before[9 + 0] == '0';
    assert HexRun(before, 9) == "0";
  }

  // ----- the placeholder -----

  function Upper(c: char): char {
    if 'a' <= c <= 'z' then (c as int - 32) as char else c
  }

  function UpperAll(s: string): (r: string)
    ensures |r| == |s| && forall i :: 0 <= i < |s| ==> r[i] == Upper(s[i])
  {
    seq(|s|, i requires 0 <= i < |s| => Upper(s[i]))
  }

  /** The fixed notice of a placeholder; it has no equals sign. */
  type Notice = s: string | '=' !in s

  function Placeholder(kind: string, notice: Notice): string {
    "# " + UpperAll(kind) + notice
  }

  lemma MatchEnds(s: string, k: nat)
    ensures MatchAt(s, k) ==> s[k + 7] == 'r' && s[k + 8] == '='
  {
    assert MARK[7] == 'r' && MARK[8] == '=';
  }

  /** An equals sign of a placeholder stands in its upper-cased kind, so no `r` precedes it. */
  lemma BeforeEquals(kind: string, notice: Notice, i: nat)
    requires 0 < i < |Placeholder(kind, notice)| && Placeholder(kind, notice)[i] == '='
    ensures Placeholder(kind, notice)[i - 1] != 'r'
  {
    var s, up := Placeholder(kind, notice), UpperAll(kind);
    assert forall j :: 2 + |up| <= j < |s| ==> s[j] == notice[j - 2 - |up|] && s[j] in notice;
    assert i < 2 + |up|;
    assert forall j :: 2 <= j < 2 + |up| ==> s[j] == up[j - 2];
  }

  /** Whatever the file is called, a placeholder carries no stamp. */
  lemma PlaceholderHasNoStamp(kind: string, notice: Notice)
    ensures FindStamp(Placeholder(kind, notice)) == None
  {
    var s := Placeholder(kind, notice);
    forall k | 0 <= k < |s| ensures !MatchAt(s, k) {
      MatchEnds(s, k);
      if k + 8 < |s| && s[k + 8] == '=' { BeforeEquals(kind, notice, k + 8); }
    }
  }
}
