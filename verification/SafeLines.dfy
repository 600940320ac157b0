/**
 Which messages no schedule of runs can strand, harness by harness, in terms of
 the lines of the file: `Durability.Safe` quantifies over every batch, the
 lemmas here say what that comes to.
 */
module SafeLines {
  import opened Records
  import opened PathDecode
  import opened ConnectorScan
  import opened TwoRuns
  import opened Durability

  /** A project comes with the line itself. */
  predicate PlacesItself(f: File, l: Line, c: Carry)
    requires Yielding(f, l)
  {
    KeyOf(Emit(f, l, c)).Some? && Emit(f, l, c).projectPath != ""
  }

  lemma {:induction false} NothingRead(f: File, lines: seq<Line>, n: nat, w: Window)
    requires n <= |lines| && forall j :: 0 <= j < n ==> !InWindow(w, lines[j])
    ensures CarryAt(f, lines, n, w) == Start(f)
    decreases n
  {
    if n > 0 { NothingRead(f, lines, n - 1, w); }
  }

  /** The window that lets through no line before line `i`. */
  function From(l: Line): Window
    requires !l.Malformed?
  {
    Window(TimeOf(l) - 1, 0)
  }

  lemma FromHere(all: seq<Line>, a: nat, m: nat)
    requires Rising(all) && a < m <= |all| && !all[a].Malformed?
    ensures var lines, w := all[..m], From(all[a]);
            && (forall j :: 0 <= j < a ==> !InWindow(w, lines[j]))
            && (forall j :: a <= j < m && !lines[j].Malformed? ==> InWindow(w, lines[j]))
  {
    var lines, w := all[..m], From(all[a]);
    forall j | 0 <= j < a ensures !InWindow(w, lines[j]) { assert lines[j] == all[j]; }
    forall j | a <= j < m && !lines[j].Malformed? ensures InWindow(w, lines[j]) { assert lines[j] == all[j]; }
  }

  /** A message read alone is stored exactly when it names its project with nothing carried. */
  lemma AloneIff(f: File, all: seq<Line>, i: nat)
    requires Rising(all) && i < |all| && IsKind(f, all[i], Turns)
    ensures Kept(f, all[..i + 1], i, From(all[i])) <==> PlacesItself(f, all[i], Start(f))
  {
    var lines, w := all[..i + 1], From(all[i]);
    assert lines[i] == all[i];
    FromHere(all, i, i + 1);
    NothingRead(f, lines, i, w);
    KeptIff(f, lines, i, w);
    forall j: nat | j < |lines| && Places(f, lines, i, j, w) ensures j == i {}
    if PlacesItself(f, all[i], Start(f)) { assert Places(f, lines, i, i, w); }
  }

  lemma SafeAlone(f: File, all: seq<Line>, i: nat)
    requires Rising(all) && i < |all| && Safe(f, all, i)
    ensures PlacesItself(f, all[i], Start(f))
  {
    AloneIff(f, all, i);
    assert InWindow(From(all[i]), all[i]);
  }

  /** A line that names its project whatever is carried to it is safe. */
  lemma PlacingItselfIsSafe(f: File, all: seq<Line>, i: nat)
    requires i < |all| && IsKind(f, all[i], Turns)
    requires forall m: nat, w :: i < m <= |all| && InWindow(w, all[i]) ==>
               PlacesItself(f, all[i], CarryAt(f, all[..m], i, w))
    ensures Safe(f, all, i)
  {
    forall m: nat, w | i < m <= |all| && InWindow(w, all[i]) ensures Kept(f, all[..m], i, w) {
      var lines := all[..m];
      assert lines[i] == all[i];
      KeptIff(f, lines, i, w);
      assert Places(f, lines, i, i, w);
    }
  }

  // ----- harness by harness -----

  /** No schedule-proof message in a Codex file: read alone, it has no directory. */
  lemma CodexNeverSafe(f: File, all: seq<Line>, i: nat)
    requires f.harness.Codex? && Rising(all) && i < |all| && IsItem(all[i])
    ensures !Safe(f, all, i)
  {
    if Safe(f, all, i) { SafeAlone(f, all, i); }
  }

  /** Claude lines and database rows are safe exactly when they name a project themselves. */
  lemma OwnFactsSafeIff(f: File, all: seq<Line>, i: nat)
    requires (i < |all| && all[i].Row?) || f.harness.Claude?
    requires Rising(all) && i < |all| && IsKind(f, all[i], Turns)
    ensures Safe(f, all, i) <==> PlacesItself(f, all[i], Start(f))
  {
    if Safe(f, all, i) {
      SafeAlone(f, all, i);
    } else if PlacesItself(f, all[i], Start(f)) {
      forall m: nat, w | i < m <= |all| && InWindow(w, all[i])
        ensures PlacesItself(f, all[i], CarryAt(f, all[..m], i, w))
      {
        assert Emit(f, all[i], CarryAt(f, all[..m], i, w)) == Emit(f, all[i], Start(f));
      }
      PlacingItselfIsSafe(f, all, i);
    }
  }

  /** The last header before line `i` names no usable directory. */
  ghost predicate BareHeaderLast(f: File, all: seq<Line>, i: nat)
    requires i <= |all|
  {
    exists j :: 0 <= j < i && BareSince(f, all, j, i)
  }

  /** Line `j` is a bare header and no later header before `i` names a directory. */
  ghost predicate BareSince(f: File, all: seq<Line>, j: int, i: nat)
    requires 0 <= j < i <= |all|
  {
    && IsHeader(all[j]) && !NamesDirectory(f, all[j])
    && forall x :: j < x < i && IsHeader(all[x]) ==> !NamesDirectory(f, all[x])
  }

  /** The last header let through decides what is carried. */
  lemma {:induction false} LastHeader(f: File, lines: seq<Line>, n: nat, w: Window) returns (j: nat)
    requires f.harness.OmpPi? && n <= |lines| && HeaderIn(lines, 0, n, w)
    ensures j < n && InWindow(w, lines[j]) && IsHeader(lines[j]) && !HeaderIn(lines, j + 1, n, w)
    ensures NamesDirectory(f, lines[j]) ==> CarryAt(f, lines, n, w).cwd != ""
    decreases n
  {
    if InWindow(w, lines[n - 1]) && IsHeader(lines[n - 1]) { j := n - 1; } else { j := LastHeader(f, lines, n - 1, w); }
  }

  /** After a bare header over an unusable directory nothing is carried until a header names one. */
  lemma {:induction false} BareCarriesNothing(f: File, lines: seq<Line>, a: nat, n: nat, w: Window)
    requires f.harness.OmpPi? && a < n <= |lines| && UnsafeCwd(f.dirCwd)
    requires InWindow(w, lines[a]) && forall j :: 0 <= j < a ==> !InWindow(w, lines[j])
    requires BareSince(f, lines, a, n)
    ensures CarryAt(f, lines, n, w).cwd == ""
    decreases n
  {
    if n == a + 1 { NothingRead(f, lines, a, w); } else { BareCarriesNothing(f, lines, a, n - 1, w); }
  }

  /** From such a header up to line `i` no record names a project. */
  lemma BareStrands(f: File, all: seq<Line>, a: nat, i: nat)
    requires f.harness.OmpPi? && Transcribes(f, all) && Rising(all) && a < i < |all| && UnsafeCwd(f.dirCwd)
    requires IsItem(all[i]) && IsKind(f, all[i], Turns) && BareSince(f, all, a, i)
    ensures !Safe(f, all, i)
  {
    var lines, w := all[..i + 1], From(all[a]);
    assert lines[a] == all[a] && lines[i] == all[i];
    FromHere(all, a, i + 1);
    forall j: nat | a <= j <= i && Reads(f, lines, j, w) ensures RecordAt(f, lines, j, w).projectPath == "" {
      assert lines[j] == all[j];
      if j == a {
        NothingRead(f, lines, a, w);
      } else {
        forall x | a < x < j && IsHeader(lines[x]) ensures !NamesDirectory(f, lines[x]) { assert lines[x] == all[x]; }
        BareCarriesNothing(f, lines, a, j, w);
      }
    }
    KeptIff(f, lines, i, w);
    assert !Kept(f, lines, i, w);
  }

  lemma UnsafeDirectoryHolds(f: File, all: seq<Line>, i: nat, m: nat, w: Window)
    requires f.harness.OmpPi? && Transcribes(f, all) && Rising(all) && i < m <= |all| && InWindow(w, all[i])
    requires f.dirCwd != "" && !BareHeaderLast(f, all, i)
    ensures CarryAt(f, all[..m], i, w).cwd != ""
  {
    var lines := all[..m];
    if HeaderIn(lines, 0, i, w) {
      var j := LastHeader(f, lines, i, w);
      assert lines[j] == all[j];
      if !NamesDirectory(f, lines[j]) {
        assert !BareSince(f, all, j, i);
        var x :| j < x < i && IsHeader(all[x]) && NamesDirectory(f, all[x]);
        assert lines[x] == all[x] && InWindow(w, lines[x]);
      }
    } else {
      CarriedFrom(f, lines, 0, i, w);
    }
  }

  /**
   An OMP or Pi message is safe exactly when its session directory decodes to
   something, and to something usable unless the last header before the message
   (if there is one) names a usable directory itself.
   */
  lemma OmpSafeIff(f: File, all: seq<Line>, i: nat)
    requires f.harness.OmpPi? && Transcribes(f, all) && Rising(all) && i < |all|
    requires IsItem(all[i]) && IsKind(f, all[i], Turns)
    ensures Safe(f, all, i) <==> f.dirCwd != "" && (UnsafeCwd(f.dirCwd) ==> !BareHeaderLast(f, all, i))
  {
    if f.dirCwd == "" {
      if Safe(f, all, i) { SafeAlone(f, all, i); }
    } else if UnsafeCwd(f.dirCwd) && BareHeaderLast(f, all, i) {
      var j :| 0 <= j < i && BareSince(f, all, j, i);
      BareStrands(f, all, j, i);
    } else {
      forall m: nat, w | i < m <= |all| && InWindow(w, all[i])
        ensures PlacesItself(f, all[i], CarryAt(f, all[..m], i, w))
      {
        KeyOfRecord(f, all[i], CarryAt(f, all[..m], i, w));
        if UnsafeCwd(f.dirCwd) {
          UnsafeDirectoryHolds(f, all, i, m, w);
        } else {
          SafeDirectoryStays(f, all[..m], i, w);
        }
      }
      PlacingItselfIsSafe(f, all, i);
    }
  }
}
