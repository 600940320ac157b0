/**
 Decoding a flattened directory name by walking a file system.  A path is its
 list of components; the file system is any predicate on paths.
 */
module PathDecode {
  import opened Wrappers

  type Path = seq<string>
  type FileSystem = Path -> bool

  /** Levels a decode walks at most; the theorems hold for every limit. */
  const STEPS: nat := 128

  // ----- joining -----

  /** Components of a relative text: cut at slashes, empty and "." parts dropped. */
  function Parts(s: string, cur: string): Path
    decreases |s|
  {
    if s == [] then Part(cur)
    else if s[0] == '/' then Part(cur) + Parts(s[1..], "")
    else Parts(s[1..], cur + [s[0]])
  }

  function Part(c: string): Path { if c == "" || c == "." then [] else [c] }

  /** Joining a candidate onto a path; an absolute candidate replaces it. */
  function Join(path: Path, cand: string): Path {
    if cand != [] && cand[0] == '/' then Parts(cand, "") else path + Parts(cand, "")
  }

  predicate SlashFree(s: string) { '/' !in s }

  lemma {:induction false} PartsOfName(s: string, cur: string)
    requires SlashFree(s)
    ensures Parts(s, cur) == Part(cur + s)
    decreases |s|
  {
    if s == [] {
      assert cur + s == cur;
    } else {
      assert s[0] != '/' by { assert s[0] in s; }
      PartsOfName(s[1..], cur + [s[0]]);
      assert cur + [s[0]] + s[1..] == cur + s;
    }
  }

  /** A single name joins as one component. */
  lemma JoinName(path: Path, name: string)
    requires SlashFree(name) && name != "" && name != "."
    ensures Join(path, name) == path + [name]
  {
    PartsOfName(name, "");
    assert "" + name == name;
    assert name[0] in name;
  }

  // ----- one level -----

  predicate SplitPoint(body: string, end: nat) { 1 <= end <= |body| && (end == |body| || body[end] == '-') }

  /** Directory names that encode to `name`. */
  function Candidates(name: string, dots: bool): seq<string>
    requires name != ""
  {
    if !dots then [name]
    else if name[0] == '-' then [name, "." + name[1..]]
    else if name[0] != '.' then [name, "." + name]
    else [name]
  }

  predicate Usable(fs: FileSystem, path: Path, cand: string) {
    cand != "" && cand != "." && cand != ".." && fs(Join(path, cand))
  }

  /** The first usable candidate among those from index `i`. */
  function FirstUsable(fs: FileSystem, path: Path, cands: seq<string>, i: nat): (r: Option<string>)
    requires i <= |cands|
    ensures r.Some? ==> r.value in cands && Usable(fs, path, r.value)
    ensures r.None? ==> forall j :: i <= j < |cands| ==> !Usable(fs, path, cands[j])
    decreases |cands| - i
  {
    if i == |cands| then None
    else if Usable(fs, path, cands[i]) then Some(cands[i])
    else FirstUsable(fs, path, cands, i + 1)
  }

  function ChildAt(fs: FileSystem, path: Path, body: string, end: nat, dots: bool): Option<string>
    requires end <= |body|
  {
    if SplitPoint(body, end) then FirstUsable(fs, path, Candidates(body[..end], dots), 0) else None
  }

  function Body(remaining: string): string {
    if remaining != [] && remaining[0] == '-' then remaining[1..] else remaining
  }

  /** `end` is the longest split at which some directory matches. */
  ghost predicate LongestAt(fs: FileSystem, path: Path, body: string, end: int, dots: bool) {
    0 <= end <= |body| && ChildAt(fs, path, body, end, dots).Some?
    && forall k :: end < k <= |body| ==> ChildAt(fs, path, body, k, dots).None?
  }

  /** The longest match at or below split `end`. */
  function MatchFrom(fs: FileSystem, path: Path, body: string, end: nat, dots: bool): (r: Option<(string, string)>)
    requires end <= |body|
  {
    if end == 0 then None
    else if ChildAt(fs, path, body, end, dots).Some? then Some((ChildAt(fs, path, body, end, dots).value, body[end..]))
    else MatchFrom(fs, path, body, end - 1, dots)
  }

  function LongestMatch(fs: FileSystem, path: Path, remaining: string, dots: bool): Option<(string, string)> {
    if remaining == "" || remaining == "-" || Body(remaining) == "" then None
    else MatchFrom(fs, path, Body(remaining), |Body(remaining)|, dots)
  }

  /** The longest split is the one the search returns. */
  lemma {:induction false} LongestIsFound(fs: FileSystem, path: Path, body: string, end: nat, k: nat, dots: bool)
    requires k <= end <= |body| && LongestAt(fs, path, body, k, dots)
    ensures MatchFrom(fs, path, body, end, dots) == Some((ChildAt(fs, path, body, k, dots).value, body[k..]))
    decreases end
  {
    if k < end {
      assert ChildAt(fs, path, body, end, dots).None?;
      LongestIsFound(fs, path, body, end - 1, k, dots);
    }
  }

  /** What the search returns comes from the longest split. */
  lemma {:induction false} FoundIsLongest(fs: FileSystem, path: Path, body: string, end: nat,
                                          dots: bool) returns (k: nat)
    requires end <= |body| && MatchFrom(fs, path, body, end, dots).Some?
    requires forall j :: end < j <= |body| ==> ChildAt(fs, path, body, j, dots).None?
    ensures LongestAt(fs, path, body, k, dots)
    ensures MatchFrom(fs, path, body, end, dots) == Some((ChildAt(fs, path, body, k, dots).value, body[k..]))
    decreases end
  {
    if ChildAt(fs, path, body, end, dots).Some? {
      k := end;
    } else {
      k := FoundIsLongest(fs, path, body, end - 1, dots);
    }
  }

  /** A search that returns nothing had nothing to find. */
  lemma {:induction false} NoneFound(fs: FileSystem, path: Path, body: string, end: nat, k: nat, dots: bool)
    requires k <= end <= |body| && ChildAt(fs, path, body, k, dots).Some?
    ensures MatchFrom(fs, path, body, end, dots).Some?
    decreases end
  {
    if k < end && ChildAt(fs, path, body, end, dots).None? { NoneFound(fs, path, body, end - 1, k, dots); }
  }

  /** What the search owes its caller: the longest split some directory matches, or nothing when none does. */
  ghost predicate Longest(fs: FileSystem, path: Path, body: string, dots: bool, r: Option<(string, string)>) {
    if r.Some? then
      exists k :: LongestAt(fs, path, body, k, dots) && r.value == (ChildAt(fs, path, body, k, dots).value, body[k..])
    else forall k :: 0 <= k <= |body| ==> ChildAt(fs, path, body, k, dots).None?
  }

  lemma SearchMeans(fs: FileSystem, path: Path, body: string, dots: bool)
    ensures Longest(fs, path, body, dots, MatchFrom(fs, path, body, |body|, dots))
  {
    if MatchFrom(fs, path, body, |body|, dots).Some? {
      var k := FoundIsLongest(fs, path, body, |body|, dots);
    } else {
      forall k | 0 <= k <= |body| ensures ChildAt(fs, path, body, k, dots).None? {
        if ChildAt(fs, path, body, k, dots).Some? { NoneFound(fs, path, body, |body|, k, dots); }
      }
    }
  }

  /** The candidate loop, longest split first. */
  method LongestChildMatch(fs: FileSystem, path: Path, remaining: string,
                           dots: bool) returns (r: Option<(string, string)>)
    ensures r == LongestMatch(fs, path, remaining, dots)
    ensures remaining != "" && remaining != "-" ==> Longest(fs, path, Body(remaining), dots, r)
  {
    if remaining == "" || remaining == "-" { return None; }
    var body := Body(remaining);
    SearchMeans(fs, path, body, dots);
    var end := |body|;
    while end > 0
      invariant 0 <= end <= |body|
      invariant MatchFrom(fs, path, body, |body|, dots) == MatchFrom(fs, path, body, end, dots)
    {
      if SplitPoint(body, end) {
        var cands := Candidates(body[..end], dots);
        var i := 0;
        while i < |cands|
          invariant 0 <= i <= |cands|
          invariant FirstUsable(fs, path, cands, 0) == FirstUsable(fs, path, cands, i)
        {
          if Usable(fs, path, cands[i]) { return Some((cands[i], body[end..])); }
          i := i + 1;
        }
      }
      end := end - 1;
    }
    return None;
  }

  // ----- the walk -----

  /** Where the walk stands after at most `steps` levels. */
  function Walk(fs: FileSystem, path: Path, remaining: string, dots: bool, steps: nat): (Path, string)
    decreases steps
  {
    if steps == 0 then (path, remaining)
    else
      var m := LongestMatch(fs, path, remaining, dots);
      if m.None? then (path, remaining) else Walk(fs, Join(path, m.value.0), m.value.1, dots, steps - 1)
  }

  /** What is left unmatched becomes one last component, or is refused. */
  function Settle(path: Path, remaining: string): Result<Path, string> {
    if remaining == "" || remaining == "-" || Body(remaining) == "" then Success(path)
    else
      var leaf := Body(remaining);
      if leaf == "." || leaf == ".." || '/' in leaf || '\\' in leaf then Failure(leaf) else Success(Join(path, leaf))
  }

  function Decode(fs: FileSystem, root: Path, remaining: string, dots: bool, limit: nat): Result<Path, string> {
    var (path, rest) := Walk(fs, root, remaining, dots, limit);
    Settle(path, rest)
  }

  lemma WalkStops(fs: FileSystem, path: Path, remaining: string, dots: bool, steps: nat)
    requires LongestMatch(fs, path, remaining, dots).None?
    ensures Walk(fs, path, remaining, dots, steps) == (path, remaining)
  {}

  lemma WalkStep(fs: FileSystem, path: Path, remaining: string, dots: bool, steps: nat)
    requires steps > 0 && LongestMatch(fs, path, remaining, dots).Some?
    ensures var m := LongestMatch(fs, path, remaining, dots).value;
            Walk(fs, path, remaining, dots, steps) == Walk(fs, Join(path, m.0), m.1, dots, steps - 1)
  {}

  method DecodeUnder(fs: FileSystem, root: Path, remaining: string, dots: bool, limit: nat)
    returns (r: Result<Path, string>)
    ensures r == Decode(fs, root, remaining, dots, limit)
  {
    var path, rest := root, remaining;
    ghost var end := Walk(fs, root, remaining, dots, limit);
    var i := 0;
    while i < limit
      invariant 0 <= i <= limit
      invariant end == Walk(fs, path, rest, dots, limit - i)
    {
      if rest == "" || rest == "-" {
        WalkStops(fs, path, rest, dots, limit - i);
        break;
      }
      var m := LongestChildMatch(fs, path, rest, dots);
      if m.None? {
        WalkStops(fs, path, rest, dots, limit - i);
        break;
      }
      WalkStep(fs, path, rest, dots, limit - i);
      path, rest := Join(path, m.value.0), m.value.1;
      i := i + 1;
    }
    r := Settle(path, rest);
  }

  // ----- encoding back -----

  function Encode(names: seq<string>): string {
    if names == [] then "" else "-" + names[0] + Encode(names[1..])
  }

  lemma {:induction false} EncodeConcat(a: seq<string>, b: seq<string>)
    ensures Encode(a + b) == Encode(a) + Encode(b)
    decreases |a|
  {
    if a == [] {
      assert a + b == b;
    } else {
      EncodeConcat(a[1..], b);
      assert (a + b)[1..] == a[1..] + b;
    }
  }

  lemma EncodeOne(name: string)
    ensures Encode([name]) == "-" + name
  {
    assert Encode([name][1..]) == "";
  }

  predicate SafeName(c: string) { c != "" && c != "." && c != ".." && SlashFree(c) }

  /** The split and the candidate a match comes from. */
  lemma MatchSource(fs: FileSystem, path: Path, remaining: string, dots: bool) returns (name: string, rest: string)
    requires LongestMatch(fs, path, remaining, dots).Some?
    ensures Body(remaining) == name + rest && name != "" && (rest == "" || rest[0] == '-')
    ensures var m := LongestMatch(fs, path, remaining, dots).value;
            m.1 == rest && m.0 in Candidates(name, dots) && Usable(fs, path, m.0)
  {
    var body := Body(remaining);
    var k := FoundIsLongest(fs, path, body, |body|, dots);
    name, rest := body[..k], body[k..];
  }

  /** One level of the walk, without the dot rule: the match is a prefix of what remains. */
  lemma MatchSplits(fs: FileSystem, path: Path, remaining: string)
    requires remaining == "" || remaining[0] == '-'
    requires LongestMatch(fs, path, remaining, false).Some?
    ensures var m := LongestMatch(fs, path, remaining, false).value;
            remaining == "-" + m.0 + m.1 && m.0 != "" && m.0 != "." && m.0 != ".." && (m.1 == "" || m.1[0] == '-')
  {
    var name, rest := MatchSource(fs, path, remaining, false);
    assert remaining == "-" + Body(remaining);
  }

  lemma FreeParts(a: string, b: string)
    requires SlashFree("-" + a + b)
    ensures SlashFree(a) && SlashFree(b)
  {
    var s := "-" + a + b;
    forall c | c in a ensures c != '/' { assert c in s; }
    forall c | c in b ensures c != '/' { assert c in s; }
  }

  /** The walk from `path` to `end` read `names`, and `rest` of `remaining` is left. */
  ghost predicate Spells(path: Path, names: seq<string>, end: Path, rest: string, remaining: string) {
    && end == path + names && Encode(names) + rest == remaining
    && (rest == "" || rest[0] == '-') && SlashFree(rest)
    && forall i :: 0 <= i < |names| ==> SafeName(names[i])
  }

  lemma SpellsMore(path: Path, name: string, more: seq<string>, end: Path, rest: string, after: string)
    requires SafeName(name) && Spells(path + [name], more, end, rest, after)
    ensures Spells(path, [name] + more, end, rest, "-" + name + after)
  {
    var names := [name] + more;
    assert names[1..] == more;
    assert Encode(names) + rest == "-" + name + (Encode(more) + rest);
    assert path + [name] + more == path + names;
  }

  /** Names read so far, joined with what remains, spell the input. */
  lemma {:induction false} WalkSpells(fs: FileSystem, path: Path, remaining: string,
                                      steps: nat) returns (names: seq<string>)
    requires SlashFree(remaining) && (remaining == "" || remaining[0] == '-')
    ensures var w := Walk(fs, path, remaining, false, steps); Spells(path, names, w.0, w.1, remaining)
    decreases steps
  {
    names := [];
    var m := LongestMatch(fs, path, remaining, false);
    if steps > 0 && m.Some? {
      MatchSplits(fs, path, remaining);
      FreeParts(m.value.0, m.value.1);
      JoinName(path, m.value.0);
      var more := WalkSpells(fs, path + [m.value.0], m.value.1, steps - 1);
      var w := Walk(fs, path, remaining, false, steps);
      SpellsMore(path, m.value.0, more, w.0, w.1, m.value.1);
      names := [m.value.0] + more;
    }
  }

  /**
   Without the dot rule, for every file system: a decoded path stays under the
   root, and encoding what lies below the root spells the input, up to one
   trailing hyphen; also when the step limit cuts the walk short.
   */
  lemma DecodeReencodes(fs: FileSystem, root: Path, remaining: string, limit: nat) returns (names: seq<string>)
    requires SlashFree(remaining) && remaining != "" && remaining[0] == '-'
    requires Decode(fs, root, remaining, false, limit).Success?
    ensures Decode(fs, root, remaining, false, limit).value == root + names
    ensures Encode(names) == remaining || Encode(names) + "-" == remaining
    ensures forall i :: 0 <= i < |names| ==> SafeName(names[i])
  {
    names := WalkSpells(fs, root, remaining, limit);
    var rest := Walk(fs, root, remaining, false, limit).1;
    if rest != "" && rest != "-" {
      var leaf := Body(rest);
      assert rest == "-" + leaf;
      FreeParts(leaf, "");
      JoinName(root + names, leaf);
      EncodeOne(leaf);
      EncodeConcat(names, [leaf]);
      names := names + [leaf];
    }
  }

  // ----- decoding an encoded path -----

  ghost predicate Names(p: seq<string>) { forall i :: 0 <= i < |p| ==> SafeName(p[i]) && '\\' !in p[i] }

  /** All the directories leading to `p` exist. */
  ghost predicate Exists(fs: FileSystem, root: Path, p: seq<string>) {
    forall k :: 0 < k <= |p| ==> fs(root + p[..k])
  }

  /** At level `k`, some longer hyphen-joined name also is a directory. */
  ghost predicate LongerSibling(fs: FileSystem, root: Path, p: seq<string>, k: nat)
    requires k < |p|
  {
    var body := Body(Encode(p[k..]));
    exists end :: |p[k]| < end <= |body| && SplitPoint(body, end) && Usable(fs, root + p[..k], body[..end])
  }

  /** No level below `n` has a longer sibling. */
  ghost predicate NotShadowed(fs: FileSystem, root: Path, p: seq<string>, n: nat)
    requires n <= |p|
  {
    forall k :: 0 <= k < n ==> !LongerSibling(fs, root, p, k)
  }

  lemma BodyOfEncode(p: seq<string>, k: nat)
    requires k < |p| && Names(p)
    ensures Encode(p[k..]) == "-" + p[k] + Encode(p[k + 1..]) && Body(Encode(p[k..])) == p[k] + Encode(p[k + 1..])
    ensures SplitPoint(Body(Encode(p[k..])), |p[k]|)
  {
    var rest := Encode(p[k + 1..]);
    assert p[k..][0] == p[k] && p[k..][1..] == p[k + 1..];
    assert Encode(p[k..]) == "-" + p[k] + rest;
    var body := p[k] + rest;
    assert ("-" + p[k] + rest)[1..] == body;
    if rest != "" { assert body[|p[k]|] == rest[0] == '-'; }
  }

  /** The walk takes the right component exactly when no longer sibling shadows it. */
  lemma LevelIff(fs: FileSystem, root: Path, p: seq<string>, k: nat)
    requires k < |p| && Names(p) && Exists(fs, root, p)
    ensures LongestMatch(fs, root + p[..k], Encode(p[k..]), false).Some?
    ensures var m := LongestMatch(fs, root + p[..k], Encode(p[k..]), false).value;
            if LongerSibling(fs, root, p, k) then |m.0| > |p[k]| else m == (p[k], Encode(p[k + 1..]))
  {
    var path, body := root + p[..k], Body(Encode(p[k..]));
    BodyOfEncode(p, k);
    assert body[..|p[k]|] == p[k] && body[|p[k]|..] == Encode(p[k + 1..]);
    JoinName(path, p[k]);
    assert path + [p[k]] == root + p[..k + 1];
    ChildIff(fs, path, body, |p[k]|);
    NoneFound(fs, path, body, |body|, |p[k]|, false);
    assert LongestMatch(fs, path, Encode(p[k..]), false) == MatchFrom(fs, path, body, |body|, false);
    var end := FoundIsLongest(fs, path, body, |body|, false);
    ChildIff(fs, path, body, end);
    if LongerSibling(fs, root, p, k) {
      var longer :| |p[k]| < longer <= |body| && SplitPoint(body, longer) && Usable(fs, path, body[..longer]);
      ChildIff(fs, path, body, longer);
    }
  }

  lemma ChildIff(fs: FileSystem, path: Path, body: string, end: nat)
    requires end <= |body|
    ensures ChildAt(fs, path, body, end, false) ==
            if SplitPoint(body, end) && Usable(fs, path, body[..end]) then Some(body[..end]) else None
  {
    if SplitPoint(body, end) {
      var cands := Candidates(body[..end], false);
      assert cands == [body[..end]];
      assert FirstUsable(fs, path, cands, 1) == None;
    }
  }

  lemma {:induction false} WalkSplits(fs: FileSystem, path: Path, remaining: string, dots: bool, a: nat, b: nat)
    ensures var w := Walk(fs, path, remaining, dots, a);
            Walk(fs, path, remaining, dots, a + b) == Walk(fs, w.0, w.1, dots, b)
    decreases a
  {
    if a > 0 {
      var m := LongestMatch(fs, path, remaining, dots);
      if m.None? {
        WalkStops(fs, path, remaining, dots, a);
        WalkStops(fs, path, remaining, dots, a + b);
        WalkStops(fs, path, remaining, dots, b);
      } else {
        WalkStep(fs, path, remaining, dots, a);
        WalkStep(fs, path, remaining, dots, a + b);
        assert a + b - 1 == a - 1 + b;
        WalkSplits(fs, Join(path, m.value.0), m.value.1, dots, a - 1, b);
      }
    }
  }

  lemma WalkLevel(fs: FileSystem, root: Path, p: seq<string>, k: nat)
    requires k < |p| && Names(p) && Exists(fs, root, p) && !LongerSibling(fs, root, p, k)
    ensures Walk(fs, root + p[..k], Encode(p[k..]), false, 1) == (root + p[..k + 1], Encode(p[k + 1..]))
  {
    LevelIff(fs, root, p, k);
    JoinName(root + p[..k], p[k]);
    assert root + p[..k] + [p[k]] == root + p[..k + 1];
  }

  /** As long as nothing shadows it, the walk follows the path. */
  lemma {:induction false} WalkFollows(fs: FileSystem, root: Path, p: seq<string>, n: nat)
    requires n <= |p| && Names(p) && Exists(fs, root, p)
    requires NotShadowed(fs, root, p, n)
    ensures Walk(fs, root, Encode(p), false, n) == (root + p[..n], Encode(p[n..]))
  {
    if n == 0 {
      assert root + p[..0] == root && p[0..] == p;
    } else {
      WalkFollows(fs, root, p, n - 1);
      WalkSplits(fs, root, Encode(p), false, n - 1, 1);
      WalkLevel(fs, root, p, n - 1);
    }
  }

  lemma WalkOnce(fs: FileSystem, path: Path, remaining: string, name: string, rest: string, steps: nat)
    requires steps > 0 && SafeName(name) && LongestMatch(fs, path, remaining, false) == Some((name, rest))
    ensures Walk(fs, path, remaining, false, steps) == Walk(fs, path + [name], rest, false, steps - 1)
  {
    JoinName(path, name);
  }

  /** A walk whose first match is known spells that name first. */
  lemma WalkSpellsFirst(fs: FileSystem, path: Path, remaining: string, name: string, rest: string, steps: nat)
    returns (names: seq<string>, end: Path, left: string)
    requires steps > 0 && SlashFree(remaining) && remaining != "" && remaining[0] == '-'
    requires LongestMatch(fs, path, remaining, false) == Some((name, rest))
    ensures Walk(fs, path, remaining, false, steps) == (end, left)
    ensures Spells(path, names, end, left, remaining) && names != [] && names[0] == name
  {
    MatchSplits(fs, path, remaining);
    FreeParts(name, rest);
    WalkOnce(fs, path, remaining, name, rest, steps);
    var more := WalkSpells(fs, path + [name], rest, steps - 1);
    var w := Walk(fs, path + [name], rest, false, steps - 1);
    end, left := w.0, w.1;
    SpellsMore(path, name, more, end, left, rest);
    names := [name] + more;
  }

  /** `end` has a longer component where the path below `root` has its `k`-th. */
  ghost predicate Elsewhere(root: Path, p: seq<string>, k: nat, end: Path)
    requires k < |p|
  {
    |root| + k < |end| && |end[|root| + k]| > |p[k]|
  }

  predicate Loose(rest: string) { SlashFree(rest) && (rest == "" || rest[0] == '-') }

  lemma SpelledElsewhere(root: Path, p: seq<string>, k: nat, names: seq<string>, end: Path, rest: string,
                         remaining: string)
    requires k < |p| && names != [] && |names[0]| > |p[k]| && Spells(root + p[..k], names, end, rest, remaining)
    ensures Elsewhere(root, p, k, end) && Loose(rest)
  {
    assert |root + p[..k]| == |root| + k;
    assert end[|root| + k] == names[0];
  }

  /** The level at which the walk takes a longer name than the path's. */
  lemma WalkTurns(fs: FileSystem, root: Path, p: seq<string>, k: nat, steps: nat) returns (end: Path, rest: string)
    requires k < |p| && steps > 0 && Names(p) && Exists(fs, root, p)
    requires SlashFree(Encode(p[k..])) && LongerSibling(fs, root, p, k)
    ensures Walk(fs, root + p[..k], Encode(p[k..]), false, steps) == (end, rest)
    ensures Elsewhere(root, p, k, end) && Loose(rest)
  {
    var path, remaining := root + p[..k], Encode(p[k..]);
    LevelIff(fs, root, p, k);
    BodyOfEncode(p, k);
    var m := LongestMatch(fs, path, remaining, false).value;
    var names;
    names, end, rest := WalkSpellsFirst(fs, path, remaining, m.0, m.1, steps);
    SpelledElsewhere(root, p, k, names, end, rest, remaining);
  }

  lemma {:induction false} EncodeIsSlashFree(p: seq<string>)
    requires Names(p)
    ensures SlashFree(Encode(p)) && '\\' !in Encode(p) && (p != [] ==> |Encode(p)| >= 2 && Encode(p)[0] == '-')
    decreases |p|
  {
    if p != [] {
      assert forall i :: 0 <= i < |p| - 1 ==> p[1..][i] == p[i + 1];
      EncodeIsSlashFree(p[1..]);
      assert SafeName(p[0]);
    }
  }

  ghost predicate Shadowed(fs: FileSystem, root: Path, p: seq<string>, limit: nat) {
    exists k :: 0 <= k < |p| && k < limit && LongerSibling(fs, root, p, k)
  }

  /**
   Decoding the encoding of an existing path returns it exactly when the path has
   at most one component more than the limit (129 for the shipped limit) and no
   longer hyphen-joined sibling directory exists at any level the walk reaches.
   */
  lemma RoundTripIff(fs: FileSystem, root: Path, p: seq<string>, limit: nat)
    requires p != [] && Names(p) && Exists(fs, root, p)
    ensures Decode(fs, root, Encode(p), false, limit) == Success(root + p)
            <==> |p| <= limit + 1 && !Shadowed(fs, root, p, limit)
  {
    if Shadowed(fs, root, p, limit) {
      ShadowedFails(fs, root, p, limit);
    } else if |p| <= limit {
      WalkedWhole(fs, root, p, limit);
    } else {
      WalkFollows(fs, root, p, limit);
      UnwalkedTail(fs, root, p, limit);
    }
  }

  lemma WalkThen(fs: FileSystem, path: Path, remaining: string, a: nat, b: nat, total: nat, mid: Path, rest: string,
                 end: (Path, string))
    requires total == a + b && Walk(fs, path, remaining, false, a) == (mid, rest)
    requires Walk(fs, mid, rest, false, b) == end
    ensures Walk(fs, path, remaining, false, total) == end
  {
    WalkSplits(fs, path, remaining, false, a, b);
  }

  /** A walk that has read everything stays there. */
  lemma WalkRests(fs: FileSystem, root: Path, remaining: string, n: nat, end: Path, limit: nat)
    requires n <= limit && Walk(fs, root, remaining, false, n) == (end, "")
    ensures Decode(fs, root, remaining, false, limit) == Success(end)
  {
    WalkStops(fs, end, "", false, limit - n);
    WalkThen(fs, root, remaining, n, limit - n, limit, end, "", (end, ""));
  }

  lemma WalkedWhole(fs: FileSystem, root: Path, p: seq<string>, limit: nat)
    requires |p| <= limit && Names(p) && Exists(fs, root, p) && NotShadowed(fs, root, p, |p|)
    ensures Decode(fs, root, Encode(p), false, limit) == Success(root + p)
  {
    WalkFollows(fs, root, p, |p|);
    assert p[..|p|] == p && Encode(p[|p|..]) == "";
    WalkRests(fs, root, Encode(p), |p|, root + p, limit);
  }

  /** Past the step limit the tail becomes a single component. */
  lemma UnwalkedTail(fs: FileSystem, root: Path, p: seq<string>, limit: nat)
    requires |p| > limit && Names(p)
    ensures Settle(root + p[..limit], Encode(p[limit..])) == Success(root + p) <==> |p| == limit + 1
  {
    var tail := p[limit..];
    EncodeIsSlashFree(tail);
    BodyOfEncode(p, limit);
    var leaf := Body(Encode(tail));
    var s := Encode(tail);
    assert s == "-" + leaf;
    FreeParts(leaf, "");
    assert forall c :: c in leaf ==> c in s;
    if |p| == limit + 1 {
      assert Encode(p[limit + 1..]) == "";
      assert leaf == p[limit];
      JoinName(root + p[..limit], leaf);
      assert root + p[..limit] + [leaf] == root + p;
    } else if leaf != "." && leaf != ".." {
      JoinName(root + p[..limit], leaf);
      assert |root + p[..limit] + [leaf]| < |root + p|;
    }
  }

  /** The first shadowed level up to `k`. */
  lemma {:induction false} FirstShadow(fs: FileSystem, root: Path, p: seq<string>, k: nat) returns (j: nat)
    requires k < |p| && LongerSibling(fs, root, p, k)
    ensures j <= k && LongerSibling(fs, root, p, j) && NotShadowed(fs, root, p, j)
    decreases k
  {
    if NotShadowed(fs, root, p, k) {
      j := k;
    } else {
      var i :| 0 <= i < k && LongerSibling(fs, root, p, i);
      j := FirstShadow(fs, root, p, i);
    }
  }

  lemma WalkedTo(fs: FileSystem, root: Path, p: seq<string>, j: nat) returns (mid: Path, left: string)
    requires j < |p| && Names(p) && Exists(fs, root, p) && NotShadowed(fs, root, p, j)
    ensures Walk(fs, root, Encode(p), false, j) == (mid, left)
    ensures mid == root + p[..j] && left == Encode(p[j..])
  {
    mid, left := root + p[..j], Encode(p[j..]);
    WalkFollows(fs, root, p, j);
  }

  lemma TurnsFrom(fs: FileSystem, root: Path, p: seq<string>, j: nat, steps: nat, mid: Path,
                  left: string) returns (end: Path, rest: string)
    requires j < |p| && steps > 0 && Names(p) && Exists(fs, root, p) && LongerSibling(fs, root, p, j)
    requires mid == root + p[..j] && left == Encode(p[j..])
    ensures Walk(fs, mid, left, false, steps) == (end, rest) && Elsewhere(root, p, j, end) && Loose(rest)
  {
    EncodeIsSlashFree(p[j..]);
    end, rest := WalkTurns(fs, root, p, j, steps);
  }

  /** From the shadowed level on, the walk ends with a longer component where the path has its own. */
  lemma TurnedWalk(fs: FileSystem, root: Path, p: seq<string>, j: nat, limit: nat, text: string, mid: Path,
                   left: string) returns (end: Path, rest: string)
    requires j < |p| && j < limit && Names(p) && Exists(fs, root, p) && LongerSibling(fs, root, p, j)
    requires Walk(fs, root, text, false, j) == (mid, left) && mid == root + p[..j] && left == Encode(p[j..])
    ensures Walk(fs, root, text, false, limit) == (end, rest) && Elsewhere(root, p, j, end) && Loose(rest)
  {
    end, rest := TurnsFrom(fs, root, p, j, limit - j, mid, left);
    WalkThen(fs, root, text, j, limit - j, limit, mid, left, (end, rest));
  }

  lemma OtherName(root: Path, p: seq<string>, j: nat, end: Path, full: Path)
    requires j < |p| && Elsewhere(root, p, j, end) && |end| <= |full| && full[..|end|] == end
    ensures full != root + p
  {
    assert full[..|end|][|root| + j] == full[|root| + j];
    assert (root + p)[|root| + j] == p[j];
  }

  lemma TurnedFails(fs: FileSystem, root: Path, p: seq<string>, j: nat, limit: nat, text: string, mid: Path,
                    left: string)
    requires j < |p| && j < limit && Names(p) && Exists(fs, root, p) && LongerSibling(fs, root, p, j)
    requires Walk(fs, root, text, false, j) == (mid, left) && mid == root + p[..j] && left == Encode(p[j..])
    ensures Decode(fs, root, text, false, limit) != Success(root + p)
  {
    var end, rest := TurnedWalk(fs, root, p, j, limit, text, mid, left);
    SettleKeeps(end, rest);
    if Settle(end, rest).Success? { OtherName(root, p, j, end, Settle(end, rest).value); }
  }

  lemma ShadowedFails(fs: FileSystem, root: Path, p: seq<string>, limit: nat)
    requires p != [] && Names(p) && Exists(fs, root, p) && Shadowed(fs, root, p, limit)
    ensures Decode(fs, root, Encode(p), false, limit) != Success(root + p)
  {
    var k :| 0 <= k < |p| && k < limit && LongerSibling(fs, root, p, k);
    var j := FirstShadow(fs, root, p, k);
    var mid, left := WalkedTo(fs, root, p, j);
    TurnedFails(fs, root, p, j, limit, Encode(p), mid, left);
  }

  /** Whatever is left, the components walked so far stay. */
  lemma SettleKeeps(path: Path, rest: string)
    requires Loose(rest)
    ensures Settle(path, rest).Success? ==>
              |path| <= |Settle(path, rest).value| && Settle(path, rest).value[..|path|] == path
  {
    if rest != "" && rest != "-" {
      var leaf := Body(rest);
      assert rest == "-" + leaf;
      FreeParts(leaf, "");
      if leaf != "." && leaf != ".." { JoinName(path, leaf); }
    }
  }

  // ----- containment, dot rule included -----

  /** Below the root, only proper single names. */
  ghost predicate Inside(root: Path, path: Path) {
    |root| <= |path| && path[..|root|] == root && forall i :: |root| <= i < |path| ==> SafeName(path[i])
  }

  lemma FreeSub(a: string, b: string)
    requires SlashFree(a) && forall c :: c in b ==> c in a
    ensures SlashFree(b)
  {}

  lemma CandidateIsName(name: string, cand: string, dots: bool)
    requires name != "" && SlashFree(name) && cand in Candidates(name, dots)
    ensures SlashFree(cand)
  {
    FreeSub(name, name[1..]);
  }

  lemma MatchedName(fs: FileSystem, path: Path, remaining: string, dots: bool)
    requires SlashFree(remaining) && LongestMatch(fs, path, remaining, dots).Some?
    ensures var m := LongestMatch(fs, path, remaining, dots).value; SafeName(m.0) && SlashFree(m.1)
  {
    var name, rest := MatchSource(fs, path, remaining, dots);
    FreeSub(remaining, Body(remaining));
    FreeSub(Body(remaining), name);
    FreeSub(Body(remaining), rest);
    CandidateIsName(name, LongestMatch(fs, path, remaining, dots).value.0, dots);
  }

  lemma {:induction false} WalkStaysInside(fs: FileSystem, root: Path, path: Path, remaining: string, dots: bool,
                                           steps: nat)
    requires SlashFree(remaining) && Inside(root, path)
    ensures var (end, rest) := Walk(fs, path, remaining, dots, steps); Inside(root, end) && SlashFree(rest)
    decreases steps
  {
    if steps > 0 && LongestMatch(fs, path, remaining, dots).Some? {
      MatchedName(fs, path, remaining, dots);
      var m := LongestMatch(fs, path, remaining, dots).value;
      JoinName(path, m.0);
      WalkStaysInside(fs, root, path + [m.0], m.1, dots, steps - 1);
    }
  }

  /** A slash-free name never decodes outside the root, whatever the file system holds. */
  lemma SlashFreeStaysInside(fs: FileSystem, root: Path, remaining: string, dots: bool, limit: nat)
    requires SlashFree(remaining) && Decode(fs, root, remaining, dots, limit).Success?
    ensures Inside(root, Decode(fs, root, remaining, dots, limit).value)
  {
    WalkStaysInside(fs, root, root, remaining, dots, limit);
    var (path, rest) := Walk(fs, root, remaining, dots, limit);
    if rest != "" && rest != "-" && Body(rest) != "" {
      assert forall c :: c in Body(rest) ==> c in rest;
      JoinName(path, Body(rest));
    }
  }

  /** Slash-freeness is needed: an absolute candidate that exists replaces the path. */
  lemma SlashEscapes(fs: FileSystem, limit: nat)
    requires limit > 0 && fs(["etc"])
    ensures Decode(fs, ["home"], "-/etc", false, limit) == Success(["etc"])
  {
    var body := "/etc";
    assert Body("-/etc") == body;
    PartsOfName("etc", "");
    assert "" + "etc" == "etc" && body[1..] == "etc";
    assert Parts(body, "") == Part("") + Parts("etc", "");
    assert Join(["home"], body) == ["etc"];
    assert body[..4] == body && body[4..] == "";
    ChildIff(fs, ["home"], body, 4);
    assert LongestAt(fs, ["home"], body, 4, false);
    LongestIsFound(fs, ["home"], body, 4, 4, false);
    assert LongestMatch(fs, ["home"], "-/etc", false) == Some((body, ""));
    assert Walk(fs, ["etc"], "", false, limit - 1) == (["etc"], "");
  }

  // ----- the harness entry points -----

  function DecodeClaude(fs: FileSystem, dirName: string): Result<Path, string> {
    if dirName == "" || dirName == "-" then Success([])
    else Decode(fs, [], if dirName[0] == '-' then dirName else "-" + dirName, true, STEPS)
  }

  predicate IsHexDigit(c: char) { '0' <= c <= '9' || 'a' <= c <= 'f' }

  /** `home-<slug>-<64 hex digits>`, before an optional final newline. */
  predicate HomeForm(dirName: string) {
    var s := if dirName != "" && dirName[|dirName| - 1] == '\n' then dirName[..|dirName| - 1] else dirName;
    var slug := |s| - 70;
    && slug >= 1 && s[..5] == "home-" && s[5 + slug] == '-' && '\n' !in s[5..5 + slug]
    && forall i :: 6 + slug <= i < |s| ==> IsHexDigit(s[i])
  }

  function LeftStrip(s: string): string { if s != "" && s[0] == '-' then LeftStrip(s[1..]) else s }

  const PRIVATE_TMP := "--private-tmp"

  predicate PrivateTmp(dirName: string) {
    |PRIVATE_TMP| <= |dirName| && dirName[..|PRIVATE_TMP|] == PRIVATE_TMP
  }

  /** What follows the private-tmp prefix, without surrounding hyphens. */
  function TmpBody(dirName: string): string
    requires |PRIVATE_TMP| <= |dirName|
  {
    var tail := dirName[|PRIVATE_TMP|..];
    LeftStrip(if |tail| >= 2 && tail[|tail| - 2..] == "--" then tail[..|tail| - 2] else tail)
  }

  /** None stands for the empty answer: the name does not determine a path. */
  function DecodeOmp(fs: FileSystem, home: Path, dirName: string): Result<Option<Path>, string> {
    if dirName == "" || dirName == "-" then Success(Some(home))
    else if HomeForm(dirName) then Success(None)
    else if PrivateTmp(dirName) then
      var body := TmpBody(dirName);
      if body == "" then Success(Some(["tmp"])) else Lift(Decode(fs, ["tmp"], "-" + body, false, STEPS))
    else
      var rel := Body(dirName);
      if rel == "" then Success(Some(home)) else Lift(Decode(fs, home, "-" + rel, false, STEPS))
  }

  function Lift(r: Result<Path, string>): Result<Option<Path>, string> {
    match r
    case Success(p) => Success(Some(p))
    case Failure(e) => Failure(e)
  }

  lemma {:induction false} StripKeepsFree(s: string)
    requires SlashFree(s)
    ensures SlashFree(LeftStrip(s))
    decreases |s|
  {
    if s != "" && s[0] == '-' {
      FreeSub(s, s[1..]);
      StripKeepsFree(s[1..]);
    }
  }

  lemma BodyIsFree(s: string)
    requires SlashFree(s)
    ensures SlashFree(Body(s))
  {}

  lemma TmpBodyIsFree(dirName: string)
    requires SlashFree(dirName) && |PRIVATE_TMP| <= |dirName|
    ensures SlashFree(TmpBody(dirName))
  {
    var tail := dirName[|PRIVATE_TMP|..];
    FreeSub(dirName, tail);
    var cut := if |tail| >= 2 && tail[|tail| - 2..] == "--" then tail[..|tail| - 2] else tail;
    FreeSub(tail, cut);
    StripKeepsFree(cut);
  }

  lemma LiftedStaysInside(fs: FileSystem, root: Path, body: string)
    requires SlashFree(body)
    ensures var r := Lift(Decode(fs, root, "-" + body, false, STEPS));
            r.Success? ==> r.value.Some? && Inside(root, r.value.value)
  {
    var remaining := "-" + body;
    assert SlashFree(remaining);
    if Decode(fs, root, remaining, false, STEPS).Success? { SlashFreeStaysInside(fs, root, remaining, false, STEPS); }
  }

  /** Every decode of a slash-free directory name stays under the home directory, under /tmp, or is refused. */
  lemma OmpStaysInside(fs: FileSystem, home: Path, dirName: string)
    requires SlashFree(dirName)
    ensures var r := DecodeOmp(fs, home, dirName);
            r.Success? && r.value.Some? ==> Inside(home, r.value.value) || Inside(["tmp"], r.value.value)
  {
    if PrivateTmp(dirName) {
      TmpBodyIsFree(dirName);
      LiftedStaysInside(fs, ["tmp"], TmpBody(dirName));
    } else {
      BodyIsFree(dirName);
      LiftedStaysInside(fs, home, Body(dirName));
    }
  }

  lemma ClaudeStaysInside(fs: FileSystem, dirName: string)
    requires SlashFree(dirName) && DecodeClaude(fs, dirName).Success?
    ensures forall i :: 0 <= i < |DecodeClaude(fs, dirName).value| ==> SafeName(DecodeClaude(fs, dirName).value[i])
  {
    if dirName != "" && dirName != "-" {
      SlashFreeStaysInside(fs, [], if dirName[0] == '-' then dirName else "-" + dirName, true, STEPS);
    }
  }

  // ----- preferring the recorded directory -----

  function SplitSlash(s: string, cur: string): seq<string>
    decreases |s|
  {
    if s == [] then [cur]
    else if s[0] == '/' then [cur] + SplitSlash(s[1..], "")
    else SplitSlash(s[1..], cur + [s[0]])
  }

  predicate UnsafeCwd(s: string) {
    s == "" || s[0] != '/' || '\0' in s || '\\' in s || ".." in SplitSlash(s, "")
  }

  /** `strip` removes surrounding whitespace. */
  function PreferCwd(strip: string -> string, recorded: Option<string>, decoded: string): (r: string)
    ensures r == "" || !UnsafeCwd(r)
  {
    if recorded.Some? && strip(recorded.value) != "" && !UnsafeCwd(strip(recorded.value)) then strip(recorded.value)
    else if decoded != "" && UnsafeCwd(decoded) then ""
    else decoded
  }

  function PathText(p: Path): string { if p == [] then "" else "/" + p[0] + PathText(p[1..]) }

  lemma {:induction false} SplitName(name: string, cur: string, rest: string)
    requires SlashFree(name) && (rest == "" || rest[0] == '/')
    ensures SplitSlash(name + rest, cur) == SplitSlash(rest, cur + name)
    decreases |name|
  {
    if name == "" {
      assert name + rest == rest && cur + name == cur;
    } else {
      assert name[0] in name;
      FreeSub(name, name[1..]);
      SplitName(name[1..], cur + [name[0]], rest);
      assert (name + rest)[1..] == name[1..] + rest;
      assert cur + [name[0]] + name[1..] == cur + name;
    }
  }

  lemma {:induction false} SplitPathText(p: Path, cur: string)
    requires forall i :: 0 <= i < |p| ==> SlashFree(p[i])
    ensures SplitSlash(PathText(p), cur) == [cur] + p
    decreases |p|
  {
    if p != [] {
      var t := p[0] + PathText(p[1..]);
      assert PathText(p) == ['/'] + t && PathText(p)[1..] == t;
      SplitName(p[0], "", PathText(p[1..]));
      assert "" + p[0] == p[0];
      SplitPathText(p[1..], p[0]);
      assert SplitSlash(t, "") == p;
    }
  }

  lemma {:induction false} TextChars(p: Path, c: char)
    requires c != '/' && forall i :: 0 <= i < |p| ==> c !in p[i]
    ensures c !in PathText(p)
    decreases |p|
  {
    if p != [] { TextChars(p[1..], c); }
  }

  /** A decoded path below the root is safe to run in unless one of its directories holds a NUL or a backslash. */
  lemma DecodedPathIsSafe(p: Path)
    requires p != [] && forall i :: 0 <= i < |p| ==> SafeName(p[i])
    ensures UnsafeCwd(PathText(p)) <==> exists i :: 0 <= i < |p| && ('\0' in p[i] || '\\' in p[i])
  {
    SplitPathText(p, "");
    assert ".." !in [""] + p;
    if forall i :: 0 <= i < |p| ==> '\0' !in p[i] && '\\' !in p[i] {
      TextChars(p, '\0');
      TextChars(p, '\\');
    } else {
      var i :| 0 <= i < |p| && ('\0' in p[i] || '\\' in p[i]);
      TextHolds(p, i, if '\0' in p[i] then '\0' else '\\');
    }
  }

  lemma {:induction false} TextHolds(p: Path, i: nat, c: char)
    requires i < |p| && c in p[i]
    ensures c in PathText(p)
    decreases |p|
  {
    if i > 0 { TextHolds(p[1..], i - 1, c); }
  }
}
