/**
 Keeping artifact rows and artifact files in agreement.  Every unlink, write,
 rename, statement, commit and rollback may fail; `:= *` decides.  A row is
 fresh when the stamp found in its content is the one today's compiler expects.
 */
module Artifacts {
  import opened Wrappers
  import opened Stamp

  datatype Target = Target(slug: string, kind: string)
  datatype Row = Row(target: Target, content: string, archived: Option<int>, version: Option<string>)

  /** Today's stamp per artifact kind; None when computing it fails. */
  type Expected = string -> Option<string>

  predicate Fresh(r: Row, expected: Expected) {
    expected(r.target.kind).Some? && FindStamp(r.content) == expected(r.target.kind)
  }

  function Judge(r: Row, expected: Expected, now: int): Row {
    if Fresh(r, expected) then r.(version := expected(r.target.kind), archived := None)
    else if r.archived.None? then r.(archived := Some(now))
    else r
  }

  function JudgeAll(rows: seq<Row>, expected: Expected, now: int): (r: seq<Row>)
    ensures |r| == |rows| && forall i :: 0 <= i < |rows| ==> r[i] == Judge(rows[i], expected, now)
  {
    seq(|rows|, i requires 0 <= i < |rows| => Judge(rows[i], expected, now))
  }

  type Files = map<Target, string>

  /** Nothing but a placeholder can be read at the target. */
  predicate Clean(files: Files, t: Target, notice: Notice) {
    t in files ==> files[t] == Placeholder(t.kind, notice)
  }

  /** Files were only removed or replaced by placeholders. */
  ghost predicate OnlyCleared(before: Files, after: Files, notice: Notice) {
    forall t :: t in after ==> t in before && (after[t] == before[t] || after[t] == Placeholder(t.kind, notice))
  }

  ghost predicate SameContents(a: seq<Row>, b: seq<Row>) {
    |a| == |b| && forall i :: 0 <= i < |a| ==> a[i].target == b[i].target && a[i].content == b[i].content
  }

  ghost predicate AllArchived(rows: seq<Row>) { forall i :: 0 <= i < |rows| ==> rows[i].archived.Some? }

  ghost predicate StaleClean(rows: seq<Row>, files: Files, expected: Expected, notice: Notice, n: nat)
    requires n <= |rows|
  {
    forall i :: 0 <= i < n && !Fresh(rows[i], expected) ==> Clean(files, rows[i].target, notice)
  }

  /** Unarchived rows carry today's stamp; archived rows' files are gone or placeholders. */
  ghost predicate Settled(rows: seq<Row>, files: Files, expected: Expected, notice: Notice) {
    forall i :: 0 <= i < |rows| ==>
      if rows[i].archived.None? then Fresh(rows[i], expected) else Clean(files, rows[i].target, notice)
  }

  /** The row identity is the target. */
  ghost predicate UniqueTargets(rows: seq<Row>) {
    forall i, j :: 0 <= i < j < |rows| ==> rows[i].target != rows[j].target
  }

  /** The first `n` unarchived rows' files hold their content. */
  ghost predicate Mirrored(rows: seq<Row>, files: Files, n: nat)
    requires n <= |rows|
  {
    forall i :: 0 <= i < n && rows[i].archived.None? ==>
        rows[i].target in files && files[rows[i].target] == rows[i].content
  }

  lemma CleanSurvives(before: Files, after: Files, t: Target, notice: Notice)
    requires OnlyCleared(before, after, notice) && Clean(before, t, notice)
    ensures Clean(after, t, notice)
  {}

  lemma JudgedIsSettled(rows: seq<Row>, files: Files, expected: Expected, notice: Notice, now: int)
    requires StaleClean(rows, files, expected, notice, |rows|)
    ensures Settled(JudgeAll(rows, expected, now), files, expected, notice)
    ensures SameContents(rows, JudgeAll(rows, expected, now))
  {}

  /** Judging again changes nothing, whenever it happens. */
  lemma JudgingIsIdempotent(rows: seq<Row>, expected: Expected, now: int, later: int)
    ensures JudgeAll(JudgeAll(rows, expected, now), expected, later) == JudgeAll(rows, expected, now)
  {}

  /** A freshly emitted row is kept exactly when no earlier, different stamp hides the footer's. */
  lemma EmittedRowIsFreshIff(r: Row, expected: Expected, now: int, before: string, stamp: string, rest: string)
    requires expected(r.target.kind) == Some(stamp) && r.content == Emitted(before, stamp, rest)
    requires before != [] && before[|before| - 1] == ' ' && stamp != [] && AllHex(stamp)
    ensures Judge(r, expected, now).archived.None? <==> FindStamp(before) == None || FindStamp(before) == Some(stamp)
  {
    StampReadsBackIff(before, stamp, rest);
  }

  /** A placeholder is never fresh, so a row could not be revived by reading one. */
  lemma PlaceholderIsStale(r: Row, expected: Expected, notice: Notice)
    requires r.content == Placeholder(r.target.kind, notice)
    ensures !Fresh(r, expected)
  {
    PlaceholderHasNoStamp(r.target.kind, notice);
  }

  function Upsert(rows: seq<Row>, t: Target, content: string): seq<Row> {
    if rows == [] then [Row(t, content, None, None)]
    else if rows[0].target == t then [rows[0].(content := content)] + rows[1..]
    else [rows[0]] + Upsert(rows[1..], t, content)
  }

  lemma {:induction false} UpsertTargets(rows: seq<Row>, t: Target, content: string)
    ensures forall r :: r in Upsert(rows, t, content) ==> r.target == t || r in rows
    decreases |rows|
  {
    if rows != [] && rows[0].target != t { UpsertTargets(rows[1..], t, content); }
  }

  lemma {:induction false} UpsertKeepsUnique(rows: seq<Row>, t: Target, content: string)
    requires UniqueTargets(rows)
    ensures UniqueTargets(Upsert(rows, t, content))
    decreases |rows|
  {
    if rows != [] && rows[0].target != t {
      var rest := Upsert(rows[1..], t, content);
      UpsertKeepsUnique(rows[1..], t, content);
      UpsertTargets(rows[1..], t, content);
      forall j | 0 <= j < |rest| ensures rest[j].target != rows[0].target { assert rest[j] in rest; }
    }
  }

  /** An upsert touches one target and keeps its archive state. */
  lemma {:induction false} UpsertRows(rows: seq<Row>, t: Target, content: string, r: Row)
    requires UniqueTargets(rows)
    ensures r in Upsert(rows, t, content) <==>
            || (r in rows && r.target != t)
            || (exists o :: o in rows && o.target == t && r == o.(content := content))
            || ((forall o :: o in rows ==> o.target != t) && r == Row(t, content, None, None))
    decreases |rows|
  {
    if rows != [] {
      var rest := rows[1..];
      assert rows == [rows[0]] + rest;
      if rows[0].target != t {
        UpsertRows(rest, t, content, r);
      } else {
        assert forall o :: o in rest ==> o.target != t;
      }
    }
  }

  class ArtifactStore {
    const expected: Expected
    const notice: Notice
    var rows: seq<Row>         // as this connection sees them
    var committed: seq<Row>    // as a reopened database would show them
    var files: Files

    constructor (expected: Expected, notice: Notice, rows: seq<Row>, files: Files)
      ensures this.expected == expected && this.notice == notice
      ensures this.rows == rows && committed == rows && this.files == files
    {
      this.expected, this.notice := expected, notice;
      this.rows, committed, this.files := rows, rows, files;
    }

    /** Remove the file; if that fails, replace it by the placeholder; if that fails too, report it. */
    method FailClosed(t: Target) returns (ok: bool)
      modifies this`files
      ensures ok ==> Clean(files, t, notice)
      ensures OnlyCleared(old(files), files, notice)
      ensures !ok ==> files == old(files)
      ensures forall c :: c != t ==> (c in files <==> c in old(files)) && (c in files ==> files[c] == old(files)[c])
    {
      if t !in files { return true; }
      var unlinked: bool := *;
      if unlinked {
        files := files - {t};
        return true;
      }
      var replaced: bool := *;
      if !replaced { return false; }
      files := files[t := Placeholder(t.kind, notice)];
      return true;
    }

    method Commit() returns (ok: bool)
      modifies this`committed
      ensures committed == if ok then rows else old(committed)
    {
      ok := *;
      if ok { committed := rows; }
    }

    /** One row of the main pass. */
    method SettleRow(i: nat, now: int) returns (ok: bool)
      requires i < |rows|
      modifies this`rows, this`files
      ensures OnlyCleared(old(files), files, notice)
      ensures ok ==> rows == old(rows)[i := Judge(old(rows)[i], expected, now)]
      ensures ok && !Fresh(old(rows)[i], expected) ==> Clean(files, old(rows)[i].target, notice)
      ensures SameContents(old(rows), rows)
    {
      var r := rows[i];
      var updated: bool := *;
      if Fresh(r, expected) {
        if !updated { return false; }
        rows := rows[i := r.(version := expected(r.target.kind), archived := None)];
        return true;
      }
      if r.archived.None? {
        if !updated { return false; }
        rows := rows[i := r.(archived := Some(now))];
      }
      ok := FailClosed(r.target);
    }

    /** Judge every row and clear every stale file; any failure stops the pass. */
    method MainPass(now: int) returns (ok: bool)
      modifies this`rows, this`files, this`committed
      ensures OnlyCleared(old(files), files, notice) && SameContents(old(rows), rows)
      ensures ok ==> rows == JudgeAll(old(rows), expected, now) && committed == rows
      ensures ok ==> StaleClean(old(rows), files, expected, notice, |old(rows)|)
      ensures !ok ==> committed == old(committed)
    {
      var selected: bool := *;
      if !selected { return false; }
      for i := 0 to |rows|
        invariant |rows| == |old(rows)| && SameContents(old(rows), rows)
        invariant forall j :: 0 <= j < |rows| ==>
                    rows[j] == if j < i then Judge(old(rows)[j], expected, now) else old(rows)[j]
        invariant OnlyCleared(old(files), files, notice)
        invariant StaleClean(old(rows), files, expected, notice, i)
        invariant committed == old(committed)
      {
        ghost var before := files;
        var settled := SettleRow(i, now);
        if !settled { return false; }
        forall j | 0 <= j < i && !Fresh(old(rows)[j], expected) ensures Clean(files, old(rows)[j].target, notice) {
          CleanSurvives(before, files, old(rows)[j].target, notice);
        }
      }
      assert rows == JudgeAll(old(rows), expected, now);
      ok := Commit();
    }

    method Rollback()
      modifies this`rows
      ensures rows == old(rows) || rows == committed
    {
      var ok: bool := *;
      if ok { rows := committed; }
    }

    /** Archive every row and clear every file, without looking at stamps. */
    method ArchiveAll(now: int) returns (ok: bool)
      modifies this`rows, this`files, this`committed
      ensures OnlyCleared(old(files), files, notice) && SameContents(old(rows), rows)
      ensures ok ==> AllArchived(rows) && committed == rows && forall t :: Clean(files, t, notice)
    {
      var updated: bool := *;
      if !updated { return false; }
      var was := rows;
      rows := seq(|was|, i requires 0 <= i < |was| =>
        if was[i].archived.None? then was[i].(archived := Some(now)) else was[i]);
      ghost var archived := rows;
      ok := Commit();
      if !ok { return; }
      var todo := files.Keys;
      while todo != {}
        invariant rows == archived && committed == rows
        invariant OnlyCleared(old(files), files, notice)
        invariant forall t :: t !in todo ==> Clean(files, t, notice)
        decreases |todo|
      {
        var t :| t in todo;
        ghost var before := files;
        ok := FailClosed(t);
        if !ok { return; }
        todo := todo - {t};
      }
    }

    /** The whole pass: judge, or else archive everything, or else raise. */
    method Reconcile(now: int) returns (ok: bool)
      requires committed == rows
      modifies this`rows, this`files, this`committed
      ensures OnlyCleared(old(files), files, notice) && SameContents(old(rows), rows)
      ensures ok ==> Settled(rows, files, expected, notice) && committed == rows
      ensures ok ==>
                || rows == JudgeAll(old(rows), expected, now)
                || (AllArchived(rows) && forall t :: Clean(files, t, notice))
    {
      ok := MainPass(now);
      if ok {
        JudgedIsSettled(old(rows), files, expected, notice, now);
        return;
      }
      Rollback();
      ok := ArchiveAll(now);
    }

    /** Compile one artifact: the file first, then the row; a failure anywhere is swallowed by the caller. */
    method Emit(t: Target, content: string, torn: string) returns (ok: bool)
      requires UniqueTargets(rows)
      modifies this`rows, this`files, this`committed
      ensures UniqueTargets(rows)
      ensures rows == old(rows) || rows == Upsert(old(rows), t, content)
      ensures ok ==> rows == Upsert(old(rows), t, content) && committed == rows && t in files && files[t] == content
      ensures forall c :: c != t ==> (c in files <==> c in old(files)) && (c in files ==> files[c] == old(files)[c])
    {
      var written: bool := *;
      if !written {
        var touched: bool := *;
        if touched { files := files[t := torn]; }
        return false;
      }
      files := files[t := content];
      var executed: bool := *;
      if !executed { return false; }
      UpsertKeepsUnique(rows, t, content);
      rows := Upsert(rows, t, content);
      ok := Commit();
    }

    /** Make every unarchived row's file equal its content; other files are left alone. */
    method Mirror() returns (ok: bool)
      requires UniqueTargets(rows)
      modifies this`files
      ensures ok ==> Mirrored(rows, files, |rows|)
      ensures forall t :: (t in files && (t !in old(files) || files[t] != old(files)[t])) ==>
                exists i :: 0 <= i < |rows| && rows[i].archived.None? && rows[i].target == t
                    && files[t] == rows[i].content
      ensures old(files).Keys <= files.Keys
    {
      for i := 0 to |rows|
        invariant Mirrored(rows, files, i)
        invariant forall t :: (t in files && (t !in old(files) || files[t] != old(files)[t])) ==>
                    exists j :: 0 <= j < i && rows[j].archived.None? && rows[j].target == t
                        && files[t] == rows[j].content
        invariant old(files).Keys <= files.Keys
      {
        var r := rows[i];
        if r.archived.None? {
          var readable: bool := *;
          if !(readable && r.target in files && files[r.target] == r.content) {
            var replaced: bool := *;
            if !replaced { return false; }
            files := files[r.target := r.content];
          }
        }
      }
      return true;
    }

    /** Clean files of archived rows stay clean through the mirror loop. */
    twostate lemma MirrorKeepsSettled()
      requires UniqueTargets(rows) && old(rows) == rows
      requires Settled(rows, old(files), expected, notice)
      requires forall t :: (t in files && (t !in old(files) || files[t] != old(files)[t])) ==>
                 exists i :: 0 <= i < |rows| && rows[i].archived.None? && rows[i].target == t
                     && files[t] == rows[i].content
      ensures Settled(rows, files, expected, notice)
    {
      forall i | 0 <= i < |rows| && rows[i].archived.Some? ensures Clean(files, rows[i].target, notice) {
        assert Clean(old(files), rows[i].target, notice);
      }
    }

    /**
     The artifact part of one run: reconcile, compile, commit, reconcile, mirror.
     If it does not raise, every unarchived row carries today's stamp and its file
     equals it, every archived row's file is gone or a placeholder, and all of
     this is durable.
     */
    method RunArtifacts(emissions: seq<(Target, string, string)>, start: int, finish: int) returns (ok: bool)
      requires UniqueTargets(rows) && committed == rows
      modifies this`rows, this`files, this`committed
      ensures ok ==> Settled(rows, files, expected, notice) && Mirrored(rows, files, |rows|)
      ensures ok ==> committed == rows && UniqueTargets(rows)
    {
      ok := Reconcile(start);
      if !ok { return; }
      for i := 0 to |emissions|
        invariant UniqueTargets(rows)
      {
        var emitted := Emit(emissions[i].0, emissions[i].1, emissions[i].2);
      }
      ok := Commit();
      if !ok { return; }
      ok := Reconcile(finish);
      if !ok { return; }
      label settled:
      ok := Mirror();
      if ok { MirrorKeepsSettled@settled(); }
    }
  }
}
