/**
 The single-instance run lock as a protocol over any number of processes.
 Opening the lock path, taking the advisory lock, dropping it, closing the
 descriptor and unlinking the path are separate steps, and steps of different
 processes interleave freely.  Run rows are opened under the lock after every
 row still marked running has been closed as interrupted.
 */
module RunLock {
  import opened Wrappers

  type Inode = nat

  /** What one process has done so far. */
  datatype Pc =
    | Idle
    | Opened(ino: Inode)                 // descriptor open, lock not tried yet
    | Locked(ino: Inode)                 // lock held, run row not opened yet
    | Running(ino: Inode, run: nat)      // lock held, run row committed
    | Ended(ino: Inode)                  // lock held, work over
    | Unlocked(ino: Inode)               // lock dropped, descriptor still open
    | Closed                             // descriptor closed, path not unlinked yet

  datatype RunStatus = Live | Finished | Interrupted
  datatype RunRow = RunRow(owner: nat, status: RunStatus)

  /** `path` is the inode the lock path names; `locks` is the kernel's lock table. */
  datatype State = State(procs: seq<Pc>, path: Option<Inode>, nextInode: Inode, locks: map<Inode, nat>,
                         runs: seq<RunRow>)

  datatype Step =
    | Open(p: nat)
    | TryLock(p: nat)
    | Begin(p: nat)
    | GiveUp(p: nat)                     // the run fails before its row is committed
    | Finish(p: nat, recorded: bool)     // a failing final update is swallowed
    | Unlock(p: nat)
    | Close(p: nat)
    | Unlink(p: nat, removed: bool)      // a failing unlink is swallowed
    | Crash(p: nat)

  predicate Holds(pc: Pc) { pc.Locked? || pc.Running? || pc.Ended? }

  /** A descriptor that holds the lock or may still take it. */
  predicate Contends(pc: Pc) { pc.Opened? || Holds(pc) }

  predicate Enabled(s: State, t: Step) {
    && t.p < |s.procs|
    && match t
       case Open(p) => s.procs[p].Idle?
       case TryLock(p) => s.procs[p].Opened?
       case Begin(p) => s.procs[p].Locked?
       case GiveUp(p) => s.procs[p].Locked?
       case Finish(p, _) => s.procs[p].Running? && s.procs[p].run < |s.runs|
       case Unlock(p) => s.procs[p].Ended?
       case Close(p) => s.procs[p].Unlocked?
       case Unlink(p, _) => s.procs[p].Closed?
       case Crash(_) => true
  }

  function Interrupt(rows: seq<RunRow>): (r: seq<RunRow>)
    ensures |r| == |rows|
    ensures forall i :: 0 <= i < |rows| ==> r[i].owner == rows[i].owner
    ensures forall i :: 0 <= i < |rows| ==> r[i].status == if rows[i].status.Live? then Interrupted else rows[i].status
  {
    seq(|rows|, i requires 0 <= i < |rows| => if rows[i].status.Live? then rows[i].(status := Interrupted) else rows[i])
  }

  function OpenPath(s: State, p: nat): State
    requires p < |s.procs|
  {
    match s.path
    case Some(i) => s.(procs := s.procs[p := Opened(i)])
    case None => s.(path := Some(s.nextInode), nextInode := s.nextInode + 1, procs := s.procs[p := Opened(s.nextInode)])
  }

  function LockInode(s: State, p: nat): State
    requires p < |s.procs| && s.procs[p].Opened?
  {
    var i := s.procs[p].ino;
    if i in s.locks then s.(procs := s.procs[p := Idle])
    else s.(procs := s.procs[p := Locked(i)], locks := s.locks[i := p])
  }

  function Apply(s: State, t: Step): State
    requires Enabled(s, t)
  {
    match t
    case Open(p) => OpenPath(s, p)
    case TryLock(p) => LockInode(s, p)
    case Begin(p) =>
      s.(procs := s.procs[p := Running(s.procs[p].ino, |s.runs|)], runs := Interrupt(s.runs) + [RunRow(p, Live)])
    case GiveUp(p) => s.(procs := s.procs[p := Ended(s.procs[p].ino)])
    case Finish(p, recorded) =>
      var pc := s.procs[p];
      s.(procs := s.procs[p := Ended(pc.ino)],
         runs := if recorded then s.runs[pc.run := s.runs[pc.run].(status := Finished)] else s.runs)
    case Unlock(p) => s.(procs := s.procs[p := Unlocked(s.procs[p].ino)], locks := s.locks - {s.procs[p].ino})
    case Close(p) => s.(procs := s.procs[p := Closed])
    case Unlink(p, removed) => s.(procs := s.procs[p := Idle], path := if removed then None else s.path)
    case Crash(p) =>
      s.(procs := s.procs[p := Idle], locks := if Holds(s.procs[p]) then s.locks - {s.procs[p].ino} else s.locks)
  }

  function Start(n: nat): State { State(seq(n, _ => Idle), None, 0, map[], []) }

  /** The trace is a run of the protocol from `s`. */
  predicate Legal(s: State, trace: seq<Step>)
    decreases |trace|
  {
    trace == [] || (Enabled(s, trace[0]) && Legal(Apply(s, trace[0]), trace[1..]))
  }

  function After(s: State, trace: seq<Step>): State
    requires Legal(s, trace)
    decreases |trace|
  {
    if trace == [] then s else After(Apply(s, trace[0]), trace[1..])
  }

  // ----- one holder per inode, whatever the interleaving -----

  /** The lock table names exactly the holders; descriptors and the path name inodes already allocated. */
  ghost predicate Consistent(s: State) {
    && (forall p :: 0 <= p < |s.procs| && Holds(s.procs[p]) ==>
        s.procs[p].ino in s.locks && s.locks[s.procs[p].ino] == p)
    && (forall i :: i in s.locks ==>
        s.locks[i] < |s.procs| && Holds(s.procs[s.locks[i]]) && s.procs[s.locks[i]].ino == i)
    && (forall p :: 0 <= p < |s.procs| && Contends(s.procs[p]) ==> s.procs[p].ino < s.nextInode)
    && (s.path.Some? ==> s.path.value < s.nextInode)
  }

  /** A live row is owned by a process that is running it, or was abandoned. */
  ghost predicate RowsOwned(s: State) {
    forall p :: 0 <= p < |s.procs| && s.procs[p].Running? ==>
      s.procs[p].run < |s.runs| && s.runs[s.procs[p].run].owner == p
  }

  lemma OpenConsistent(s: State, p: nat)
    requires Consistent(s) && Enabled(s, Open(p))
    ensures Consistent(OpenPath(s, p))
  {}

  lemma LockConsistent(s: State, p: nat)
    requires Consistent(s) && Enabled(s, TryLock(p))
    ensures Consistent(LockInode(s, p))
  {}

  /** Moving on with the lock, or without it, leaves the lock table as it is. */
  lemma KeepConsistent(s: State, t: Step)
    requires Consistent(s) && Enabled(s, t) && (t.Begin? || t.GiveUp? || t.Finish? || t.Close? || t.Unlink?)
    ensures Consistent(Apply(s, t))
  {}

  lemma DropConsistent(s: State, t: Step)
    requires Consistent(s) && Enabled(s, t) && (t.Unlock? || t.Crash?)
    ensures Consistent(Apply(s, t))
  {}

  lemma StepConsistent(s: State, t: Step)
    requires Consistent(s) && Enabled(s, t)
    ensures Consistent(Apply(s, t))
  {
    if t.Open? { OpenConsistent(s, t.p); }
    else if t.TryLock? { LockConsistent(s, t.p); }
    else if t.Unlock? || t.Crash? { DropConsistent(s, t); }
    else { KeepConsistent(s, t); }
  }

  lemma StepRowsOwned(s: State, t: Step)
    requires RowsOwned(s) && Enabled(s, t)
    ensures RowsOwned(Apply(s, t))
  {}

  lemma {:induction false} RunConsistent(s: State, trace: seq<Step>)
    requires Consistent(s) && RowsOwned(s) && Legal(s, trace)
    ensures Consistent(After(s, trace)) && RowsOwned(After(s, trace))
    ensures |After(s, trace).procs| == |s.procs|
    decreases |trace|
  {
    if trace != [] {
      StepConsistent(s, trace[0]);
      StepRowsOwned(s, trace[0]);
      RunConsistent(Apply(s, trace[0]), trace[1..]);
    }
  }

  /** In every interleaving, two holders of one inode are the same process. */
  lemma OneHolderPerInode(n: nat, trace: seq<Step>, p: nat, q: nat)
    requires Legal(Start(n), trace)
    requires var s := After(Start(n), trace);
             && p < |s.procs| && q < |s.procs| && Holds(s.procs[p]) && Holds(s.procs[q])
             && s.procs[p].ino == s.procs[q].ino
    ensures p == q
  {
    RunConsistent(Start(n), trace);
  }

  // ----- when is there one holder overall -----

  ghost predicate SingleHolder(s: State) {
    forall p, q :: 0 <= p < |s.procs| && 0 <= q < |s.procs| && Holds(s.procs[p]) && Holds(s.procs[q]) ==> p == q
  }

  /** Everybody who holds the lock, or may still take it, has the inode the path names. */
  ghost predicate OnPath(s: State) {
    forall p :: 0 <= p < |s.procs| && Contends(s.procs[p]) ==> s.path == Some(s.procs[p].ino)
  }

  /** A step that does not take the path away under somebody's descriptor. */
  ghost predicate SafeStep(s: State, t: Step) {
    t.Unlink? && t.removed ==> forall q :: 0 <= q < |s.procs| ==> !Contends(s.procs[q])
  }

  ghost predicate SafeTrace(s: State, trace: seq<Step>)
    requires Legal(s, trace)
    decreases |trace|
  {
    trace != [] ==> SafeStep(s, trace[0]) && SafeTrace(Apply(s, trace[0]), trace[1..])
  }

  lemma OnPathSingle(s: State)
    requires Consistent(s) && OnPath(s)
    ensures SingleHolder(s)
  {}

  lemma StepOnPath(s: State, t: Step)
    requires OnPath(s) && Enabled(s, t) && SafeStep(s, t)
    ensures OnPath(Apply(s, t))
  {}

  lemma {:induction false} SafeRun(s: State, trace: seq<Step>)
    requires Consistent(s) && RowsOwned(s) && OnPath(s) && Legal(s, trace) && SafeTrace(s, trace)
    ensures var e := After(s, trace); Consistent(e) && RowsOwned(e) && OnPath(e) && SingleHolder(e)
    decreases |trace|
  {
    if trace == [] {
      OnPathSingle(s);
    } else {
      StepConsistent(s, trace[0]);
      StepRowsOwned(s, trace[0]);
      StepOnPath(s, trace[0]);
      SafeRun(Apply(s, trace[0]), trace[1..]);
    }
  }

  /** If no unlink removes the path while another descriptor contends, at most one process holds the lock. */
  lemma SafeUnlinksExclude(n: nat, trace: seq<Step>)
    requires Legal(Start(n), trace) && SafeTrace(Start(n), trace)
    ensures SingleHolder(After(Start(n), trace))
  {
    SafeRun(Start(n), trace);
  }

  lemma {:induction false} NeverUnlinkedIsSafe(s: State, trace: seq<Step>)
    requires Legal(s, trace)
    requires forall t :: t in trace ==> !(t.Unlink? && t.removed)
    ensures SafeTrace(s, trace)
    decreases |trace|
  {
    if trace != [] {
      assert trace[0] in trace;
      NeverUnlinkedIsSafe(Apply(s, trace[0]), trace[1..]);
    }
  }

  lemma {:induction false} TraceConcat(s: State, a: seq<Step>, b: seq<Step>)
    requires Legal(s, a) && Legal(After(s, a), b)
    ensures Legal(s, a + b) && After(s, a + b) == After(After(s, a), b)
    decreases |a|
  {
    if a == [] {
      assert a + b == b;
    } else {
      assert (a + b)[0] == a[0] && (a + b)[1..] == a[1..] + b;
      TraceConcat(Apply(s, a[0]), a[1..], b);
    }
  }

  lemma TwoSteps(s: State, a: Step, b: Step)
    ensures Legal(s, [a, b]) <==> Enabled(s, a) && Enabled(Apply(s, a), b)
    ensures Legal(s, [a, b]) ==> After(s, [a, b]) == Apply(Apply(s, a), b)
    ensures Legal(s, [a, b]) && SafeStep(s, a) && SafeStep(Apply(s, a), b) ==> SafeTrace(s, [a, b])
  {
    assert [a, b][1..] == [b] && [b][1..] == [];
    if Enabled(s, a) {
      var s1 := Apply(s, a);
      assert Legal(s1, [b]) <==> Enabled(s1, b);
      if Enabled(s1, b) {
        assert After(s1, [b]) == Apply(s1, b);
        assert SafeStep(s1, b) ==> SafeTrace(s1, [b]);
      }
    }
  }

  /** One holder on the inode a contender has: the contender itself, or whoever beat it. */
  lemma HolderAppears(s: State, q: nat) returns (trace: seq<Step>, r: nat)
    requires Consistent(s) && q < |s.procs| && Contends(s.procs[q])
    ensures Legal(s, trace)
    ensures var e := After(s, trace);
            r < |e.procs| == |s.procs| && Holds(e.procs[r]) && e.procs[r].ino == s.procs[q].ino
    ensures After(s, trace).path == s.path && Consistent(After(s, trace))
    ensures forall p :: 0 <= p < |s.procs| && p != q ==> After(s, trace).procs[p] == s.procs[p]
  {
    if Holds(s.procs[q]) {
      return [], q;
    }
    var i := s.procs[q].ino;
    trace := [TryLock(q)];
    assert trace[1..] == [];
    StepConsistent(s, trace[0]);
    r := if i in s.locks then s.locks[i] else q;
  }

  /**
   The condition is also necessary: whenever an unlink takes the path away from
   under a contending descriptor, two processes can end up holding the lock.
   */
  lemma UnsafeUnlinkBreaksExclusion(s: State, t: Step, p: nat) returns (more: seq<Step>)
    requires Consistent(s) && Enabled(s, t) && t == Unlink(p, true) && !SafeStep(s, t)
    ensures Legal(s, [t] + more) && !SingleHolder(After(s, [t] + more))
  {
    var s1 := Apply(s, t);
    StepConsistent(s, t);
    var q :| 0 <= q < |s.procs| && Contends(s.procs[q]);
    var first, r := HolderAppears(s1, q);
    var s2 := After(s1, first);
    assert s2.procs[p] == Idle && s2.path == None;
    assert r != p;
    var second := [Open(p), TryLock(p)];
    var s3 := Apply(s2, Open(p));
    assert s3.procs[p] == Opened(s2.nextInode) && s2.nextInode !in s3.locks;
    var s4 := Apply(s3, TryLock(p));
    TwoSteps(s2, Open(p), TryLock(p));
    assert Holds(s4.procs[p]) && Holds(s4.procs[r]);
    TraceConcat(s1, first, second);
    more := first + second;
    assert ([t] + more)[1..] == more;
  }

  // ----- recovery -----

  /** The row's run is still executing. */
  ghost predicate RunIsLive(s: State, row: nat) {
    exists p :: 0 <= p < |s.procs| && s.procs[p].Running? && s.procs[p].run == row
  }

  /** Under the safe condition the rows a recovering process closes are all abandoned ones. */
  lemma RecoveryClosesOnlyDeadRuns(n: nat, trace: seq<Step>, p: nat, row: nat)
    requires Legal(Start(n), trace) && SafeTrace(Start(n), trace)
    requires Enabled(After(Start(n), trace), Begin(p))
    requires row < |After(Start(n), trace).runs| && After(Start(n), trace).runs[row].status.Live?
    ensures !RunIsLive(After(Start(n), trace), row)
    ensures Apply(After(Start(n), trace), Begin(p)).runs[row].status.Interrupted?
  {
    SafeRun(Start(n), trace);
  }

  /** Each run that is executing under the safe condition still has its row marked running. */
  ghost predicate LiveRowsLive(s: State) {
    && (forall p :: 0 <= p < |s.procs| && s.procs[p].Running? ==>
        s.procs[p].run < |s.runs| && s.runs[s.procs[p].run].status.Live?)
    && (forall p, q ::
          0 <= p < |s.procs| && 0 <= q < |s.procs| && s.procs[p].Running? && s.procs[q].Running? && p != q ==>
            s.procs[p].run != s.procs[q].run)
  }

  lemma StepLiveRows(s: State, t: Step)
    requires LiveRowsLive(s) && Consistent(s) && OnPath(s) && Enabled(s, t)
    ensures LiveRowsLive(Apply(s, t))
  {
    OnPathSingle(s);
  }

  lemma {:induction false} LiveRunsKeepTheirRow(s: State, trace: seq<Step>)
    requires Consistent(s) && OnPath(s) && LiveRowsLive(s) && Legal(s, trace) && SafeTrace(s, trace)
    ensures LiveRowsLive(After(s, trace))
    decreases |trace|
  {
    if trace != [] {
      StepConsistent(s, trace[0]);
      StepOnPath(s, trace[0]);
      StepLiveRows(s, trace[0]);
      LiveRunsKeepTheirRow(Apply(s, trace[0]), trace[1..]);
    }
  }

  // ----- atomic variants -----

  /** Acquire and release as single actions. */
  datatype Action = AcquireAll(p: nat) | Work(t: Step) | ReleaseAll(p: nat, removed: bool)

  function StepsOf(a: Action): seq<Step> {
    match a
    case AcquireAll(p) => [Open(p), TryLock(p)]
    case Work(t) => [t]
    case ReleaseAll(p, removed) => [Unlock(p), Close(p), Unlink(p, removed)]
  }

  /** Work is anything but the steps of acquire and release. */
  predicate WellFormed(a: Action) {
    a.Work? ==> a.t.Begin? || a.t.GiveUp? || a.t.Finish? || a.t.Crash?
  }

  function StepsOfAll(actions: seq<Action>): seq<Step> {
    if actions == [] then [] else StepsOf(actions[0]) + StepsOfAll(actions[1..])
  }

  /** Between actions nobody is halfway through acquiring or releasing. */
  ghost predicate Settled(s: State) {
    forall p :: 0 <= p < |s.procs| ==> s.procs[p].Idle? || Holds(s.procs[p])
  }

  lemma {:induction false} SplitTrace(s: State, a: seq<Step>, b: seq<Step>)
    requires Legal(s, a + b)
    ensures Legal(s, a) && Legal(After(s, a), b)
    ensures SafeTrace(s, a) && SafeTrace(After(s, a), b) ==> SafeTrace(s, a + b)
    decreases |a|
  {
    if a == [] {
      assert a + b == b;
    } else {
      assert (a + b)[0] == a[0] && (a + b)[1..] == a[1..] + b;
      SplitTrace(Apply(s, a[0]), a[1..], b);
    }
  }

  lemma AcquireIsSafe(s: State, p: nat)
    requires Settled(s) && Legal(s, StepsOf(AcquireAll(p)))
    ensures SafeTrace(s, StepsOf(AcquireAll(p))) && Settled(After(s, StepsOf(AcquireAll(p))))
  {
    TwoSteps(s, Open(p), TryLock(p));
  }

  lemma ReleaseIsSafe(s: State, p: nat, removed: bool)
    requires Settled(s) && Consistent(s) && OnPath(s) && Legal(s, StepsOf(ReleaseAll(p, removed)))
    ensures SafeTrace(s, StepsOf(ReleaseAll(p, removed))) && Settled(After(s, StepsOf(ReleaseAll(p, removed))))
  {
    OnPathSingle(s);
    var steps := StepsOf(ReleaseAll(p, removed));
    assert steps[0] == Unlock(p) && steps[1..] == [Close(p), Unlink(p, removed)];
    TwoSteps(Apply(s, Unlock(p)), Close(p), Unlink(p, removed));
  }

  lemma ActionIsSafe(s: State, a: Action)
    requires Settled(s) && Consistent(s) && OnPath(s) && WellFormed(a) && Legal(s, StepsOf(a))
    ensures SafeTrace(s, StepsOf(a)) && Settled(After(s, StepsOf(a)))
  {
    match a
    case AcquireAll(p) => AcquireIsSafe(s, p);
    case ReleaseAll(p, removed) => ReleaseIsSafe(s, p, removed);
    case Work(t) => assert [t][1..] == [];
  }

  /** With acquire and release each atomic, every interleaving of the actions is safe. */
  lemma {:induction false} AtomicActionsAreSafe(s: State, actions: seq<Action>)
    requires Settled(s) && Consistent(s) && RowsOwned(s) && OnPath(s)
    requires (forall a :: a in actions ==> WellFormed(a)) && Legal(s, StepsOfAll(actions))
    ensures SafeTrace(s, StepsOfAll(actions))
    decreases |actions|
  {
    if actions != [] {
      var a, rest := actions[0], actions[1..];
      assert a in actions;
      SplitTrace(s, StepsOf(a), StepsOfAll(rest));
      ActionIsSafe(s, a);
      SafeRun(s, StepsOf(a));
      AtomicActionsAreSafe(After(s, StepsOf(a)), rest);
    }
  }

  lemma AtomicVariantExcludes(n: nat, actions: seq<Action>)
    requires (forall a :: a in actions ==> WellFormed(a)) && Legal(Start(n), StepsOfAll(actions))
    ensures SingleHolder(After(Start(n), StepsOfAll(actions)))
  {
    AtomicActionsAreSafe(Start(n), actions);
    SafeUnlinksExclude(n, StepsOfAll(actions));
  }

  // ----- the steps as written reach a two-holder state -----

  lemma Extend(s: State, trace: seq<Step>, t: Step) returns (longer: seq<Step>, e: State)
    requires Legal(s, trace) && Enabled(After(s, trace), t)
    ensures longer == trace + [t] && Legal(s, longer) && e == After(s, longer) == Apply(After(s, trace), t)
  {
    longer, e := trace + [t], Apply(After(s, trace), t);
    assert [t][1..] == [];
    TraceConcat(s, trace, [t]);
  }

  /** Both processes open the path; process 0 gets the lock and finishes its run. */
  lemma OverlapFirstRun() returns (trace: seq<Step>, s: State)
    ensures Legal(Start(3), trace) && s == After(Start(3), trace)
    ensures s == State([Ended(0), Opened(0), Idle], Some(0), 1, map[0 := 0], [RunRow(0, Finished)])
  {
    var s0 := Start(3);
    assert s0.procs == [Idle, Idle, Idle];
    trace, s := Extend(s0, [], Open(0));
    trace, s := Extend(s0, trace, Open(1));
    trace, s := Extend(s0, trace, TryLock(0));
    assert s == State([Locked(0), Opened(0), Idle], Some(0), 1, map[0 := 0], []);
    trace, s := Extend(s0, trace, Begin(0));
    trace, s := Extend(s0, trace, Finish(0, true));
  }

  /** Process 1 still has the old inode open when process 0 has just closed its descriptor. */
  lemma OverlapBeforeUnlink() returns (trace: seq<Step>, s: State)
    ensures Legal(Start(3), trace) && s == After(Start(3), trace)
    ensures s == State([Closed, Opened(0), Idle], Some(0), 1, map[], [RunRow(0, Finished)])
  {
    trace, s := OverlapFirstRun();
    trace, s := Extend(Start(3), trace, Unlock(0));
    trace, s := Extend(Start(3), trace, Close(0));
  }

  /** Process 1 takes the old inode and opens its run. */
  lemma OverlapWaiterRuns() returns (trace: seq<Step>, s: State)
    ensures Legal(Start(3), trace) && s == After(Start(3), trace)
    ensures s == State([Closed, Running(0, 1), Idle], Some(0), 1, map[0 := 1], [RunRow(0, Finished), RunRow(1, Live)])
  {
    trace, s := OverlapBeforeUnlink();
    trace, s := Extend(Start(3), trace, TryLock(1));
    assert s == State([Closed, Locked(0), Idle], Some(0), 1, map[0 := 1], [RunRow(0, Finished)]);
    trace, s := Extend(Start(3), trace, Begin(1));
  }

  /** Process 0 unlinks the path and process 2 opens a fresh inode. */
  lemma OverlapNewcomerOpens() returns (trace: seq<Step>, s: State)
    ensures Legal(Start(3), trace) && s == After(Start(3), trace)
    ensures s == State([Idle, Running(0, 1), Opened(1)], Some(1), 2, map[0 := 1],
            [RunRow(0, Finished), RunRow(1, Live)])
  {
    trace, s := OverlapWaiterRuns();
    trace, s := Extend(Start(3), trace, Unlink(0, true));
    assert s == State([Idle, Running(0, 1), Idle], None, 1, map[0 := 1], [RunRow(0, Finished), RunRow(1, Live)]);
    trace, s := Extend(Start(3), trace, Open(2));
  }

  /**
   The steps as written: a waiter locks the old inode between the first
   process's unlock and its unlink, and a newcomer locks a fresh one.  Two
   processes hold the lock, and the newcomer's recovery interrupts a live run.
   */
  lemma OverlapReachesTwoHolders() returns (trace: seq<Step>, s: State)
    ensures Legal(Start(3), trace) && s == After(Start(3), trace)
    ensures !SingleHolder(s) && Enabled(s, Begin(2))
    ensures |s.runs| == 2 && RunIsLive(s, 1) && Apply(s, Begin(2)).runs[1].status.Interrupted?
  {
    trace, s := OverlapNewcomerOpens();
    trace, s := Extend(Start(3), trace, TryLock(2));
    assert Holds(s.procs[1]) && Holds(s.procs[2]);
  }

  // ----- the lock object -----

  /** The operating system's side: each call is one step of the protocol. */
  class Kernel {
    var state: State

    constructor (n: nat)
      ensures state == Start(n)
    {
      state := Start(n);
    }

    method Call(t: Step)
      requires Enabled(state, t)
      modifies this
      ensures state == Apply(old(state), t)
    {
      state := Apply(state, t);
    }
  }

  class Lock {
    const kernel: Kernel
    const p: nat
    var fd: Option<Inode>

    constructor (kernel: Kernel, p: nat)
      ensures this.kernel == kernel && this.p == p && fd == None
    {
      this.kernel, this.p, fd := kernel, p, None;
    }

    /** The descriptor is exactly the one the protocol says this process holds the lock with. */
    ghost predicate Agrees()
      reads this, kernel
    {
      p < |kernel.state.procs|
      && match fd
         case None => kernel.state.procs[p].Idle?
         case Some(i) => Holds(kernel.state.procs[p]) && kernel.state.procs[p].ino == i
    }

    method Acquire() returns (ok: bool)
      requires Agrees() && fd.None?
      modifies this, kernel
      ensures Agrees() && ok == fd.Some?
      ensures Legal(old(kernel.state), [Open(p), TryLock(p)])
      ensures kernel.state == After(old(kernel.state), [Open(p), TryLock(p)])
      ensures old(kernel.state.path).Some? ==> (ok <==> old(kernel.state.path).value !in old(kernel.state.locks))
    {
      TwoSteps(kernel.state, Open(p), TryLock(p));
      kernel.Call(Open(p));
      var ino := kernel.state.procs[p].ino;
      kernel.Call(TryLock(p));
      ok := kernel.state.procs[p].Locked?;
      fd := if ok then Some(ino) else None;
    }

    /** Nothing happens without a descriptor; otherwise unlock, close, and try to unlink. */
    method Release(removable: bool)
      requires Agrees() && (fd.Some? ==> kernel.state.procs[p].Ended?)
      modifies this, kernel
      ensures Agrees() && fd == None
      ensures old(fd).None? ==> kernel.state == old(kernel.state)
      ensures old(fd).Some? ==>
                && Legal(old(kernel.state), StepsOf(ReleaseAll(p, removable)))
                && kernel.state == After(old(kernel.state), StepsOf(ReleaseAll(p, removable)))
    {
      if fd.None? { return; }
      ghost var steps := StepsOf(ReleaseAll(p, removable));
      assert steps[0] == Unlock(p) && steps[1..] == [Close(p), Unlink(p, removable)];
      TwoSteps(Apply(kernel.state, Unlock(p)), Close(p), Unlink(p, removable));
      kernel.Call(Unlock(p));
      fd := None;
      kernel.Call(Close(p));
      kernel.Call(Unlink(p, removable));
    }
  }
}
